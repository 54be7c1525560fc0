/** What every handler of a channel keeps, whatever the other end sends. */
module ChannelInvariant {
  import opened Bits
  import opened ChannelModel
  import opened Common

  /** All data bytes for one stream in a list of messages. */
  function DataOf(w: Which, ms: seq<Msg>): seq<U8> {
    if ms == [] then [] else DataOf(w, ms[..|ms| - 1]) + Payload(w, ms[|ms| - 1])
  }

  function Payload(w: Which, m: Msg): seq<U8> {
    if (m.Data? && w == Main) || (m.ExtData? && w == Extra) then m.bytes else []
  }

  /** The window that a list of messages grants. */
  function CreditOf(ms: seq<Msg>): nat {
    if ms == [] then 0 else CreditOf(ms[..|ms| - 1]) + Grant(ms[|ms| - 1])
  }

  function Grant(m: Msg): nat {
    match m case Open(n, _) => n case Confirm(n, _) => n case Adjust(n) => n case _ => 0
  }

  function DataLen(ms: seq<Msg>): nat { |DataOf(Main, ms)| + |DataOf(Extra, ms)| }

  predicate IsData(m: Msg) { m.Data? || m.ExtData? }

  predicate IsOpening(m: Msg) { m.Open? || m.Confirm? }

  /** At most one EOF and one CLOSE; no data and no second EOF after EOF; nothing after CLOSE; and only
      the first message opens or confirms. */
  ghost predicate WellOrdered(ms: seq<Msg>) {
    forall i, j :: 0 <= i < j < |ms| ==>
        !ms[i].Close? && (ms[i].Eof? ==> !IsData(ms[j]) && !ms[j].Eof?) && !IsOpening(ms[j])
  }

  ghost predicate SaysClose(ms: seq<Msg>) { exists i :: 0 <= i < |ms| && ms[i].Close? }
  ghost predicate SaysEof(ms: seq<Msg>) { exists i :: 0 <= i < |ms| && (ms[i].Eof? || ms[i].Close?) }

  /** The bytes held for the local descriptors, and all bytes accepted. */
  function Held(r: Recv): nat { |r.main.buf| + if r.ext.Some? then |r.ext.value.buf| else 0 }
  function Accepted(r: Recv): nat { |r.main.accepted| + if r.ext.Some? then |r.ext.value.accepted| else 0 }
  predicate Failed(r: Recv) { r.main.failed || (r.ext.Some? && r.ext.value.failed) }

  /** Written bytes, then buffered bytes, then bytes still in hand are what was accepted, up to a failed write. */
  predicate StreamKept(s: Stream, fd: int, inHand: seq<U8>) {
    && s.written + s.buf + inHand <= s.accepted
    && (s.failed ==> fd == FD_CLOSED)
    && (!s.failed ==> s.written + s.buf + inHand == s.accepted)
  }

  /** Every byte of the receive window is in the window, done, held or in hand. */
  predicate FlowKept(cfg: Config, r: Recv, f: Fds, w: Which, inHand: seq<U8>) {
    && StreamKept(r.main, f.write, if w == Main then inHand else [])
    && (r.ext.Some? ==> StreamKept(r.ext.value, f.err, if w == Extra then inHand else []))
    && r.window + r.donelen + Held(r) + |inHand| <= cfg.window
    && (!Failed(r) ==> r.window + r.donelen + Held(r) + |inHand| == cfg.window)
  }

  predicate DoneKept(cfg: Config, r: Recv) { r.donelen < Extend(cfg) || r.donelen == 0 }

  /** The window ever granted is the window left and the bytes accepted. */
  predicate LedgerKept(r: Recv, sent: seq<Msg>) { r.window + Accepted(r) == CreditOf(sent) }

  /** What was read has all been sent, in order. */
  predicate InputKept(i: Input, sent: seq<Msg>) { DataOf(Main, sent) == i.main && DataOf(Extra, sent) == i.extra }

  /** The close handshake as the descriptors and flags reflect it. */
  ghost predicate EndsKept(cfg: Config, f: Fds, g: Flags, sent: seq<Msg>, errIsRead: bool, live: bool) {
    && WellOrdered(sent)
    && (g.sentClose <==> SaysClose(sent))
    && (g.sentEof <==> SaysEof(sent))
    && (g.sentClose ==> f == ALL_CLOSED)
    && (g.sentEof ==> f.read == FD_CLOSED && (errIsRead ==> f.err == FD_CLOSED))
    && (g.recvClose ==> g.recvEof)
    && (!live ==> g.sentClose && g.recvClose)
  }

  predicate GoodConfig(cfg: Config) { 0 < cfg.window <= MAX_RECV_WINDOW }

  ghost predicate Inv(cfg: Config, c: Chan) { Midway(cfg, c, Main, []) && DoneKept(cfg, c.recv) }

  /** The invariant while bytes taken off the wire for stream w are neither written nor stored. */
  ghost predicate Midway(cfg: Config, c: Chan, w: Which, inHand: seq<U8>) {
    && GoodConfig(cfg) && HasStream(c.recv, w)
    && FlowKept(cfg, c.recv, c.fds, w, inHand)
    && LedgerKept(c.recv, c.sent) && InputKept(c.input, c.sent)
    && EndsKept(cfg, c.fds, c.flags, c.sent, ErrfdIsRead(c), c.live)
  }

  /** What a handler that takes nothing off the wire leaves alone. */
  ghost predicate Keeps(c: Chan, d: Chan) {
    && c.sent <= d.sent && d.got == c.got && (!c.live ==> !d.live)
    && d.trans.window + DataLen(d.sent) == c.trans.window + DataLen(c.sent)
    && SameAccepted(c.recv, d.recv)
    && (c.fds.write < 0 ==> d.fds.write < 0) && (c.fds.err < 0 ==> d.fds.err < 0)
    && d.flags.recvEof == c.flags.recvEof && d.flags.recvClose == c.flags.recvClose
    && d.flags.awaitOpen == c.flags.awaitOpen
  }

  predicate SameAccepted(r: Recv, q: Recv) {
    && q.main.accepted == r.main.accepted && q.ext.Some? == r.ext.Some?
    && (r.ext.Some? ==> q.ext.value.accepted == r.ext.value.accepted)
  }

  lemma KeepsSelf(c: Chan)
    ensures Keeps(c, c)
  {
  }

  lemma KeepsTransitive(c: Chan, d: Chan, e: Chan)
    requires Keeps(c, d) && Keeps(d, e)
    ensures Keeps(c, e)
  {
  }

  lemma SendOne(ms: seq<Msg>, m: Msg)
    ensures DataOf(Main, ms + [m]) == DataOf(Main, ms) + Payload(Main, m)
    ensures DataOf(Extra, ms + [m]) == DataOf(Extra, ms) + Payload(Extra, m)
    ensures CreditOf(ms + [m]) == CreditOf(ms) + Grant(m)
    ensures SaysClose(ms + [m]) <==> SaysClose(ms) || m.Close?
    ensures SaysEof(ms + [m]) <==> SaysEof(ms) || m.Close? || m.Eof?
  {
    var ns := ms + [m];
    assert ns[..|ns| - 1] == ms;
    assert ns[|ms|] == m;
    assert forall i :: 0 <= i < |ms| ==> ns[i] == ms[i];
  }

  lemma SendKeepsOrder(ms: seq<Msg>, m: Msg)
    requires WellOrdered(ms) && !SaysClose(ms) && !IsOpening(m) && (IsData(m) || m.Eof? ==> !SaysEof(ms))
    ensures WellOrdered(ms + [m])
  {
  }

  // -- Closing --

  lemma ClosingKeeps(cfg: Config, c: Chan, fd: int, how: How)
    requires Inv(cfg, c)
    ensures Inv(cfg, Closing(cfg, c, fd, how)) && Keeps(c, Closing(cfg, c, fd, how))
  {
  }

  lemma SendCloseKeeps(cfg: Config, c: Chan)
    requires Inv(cfg, c) && !c.flags.sentClose && AllReadClosed(c)
    ensures Inv(cfg, SendClose(cfg, c)) && Keeps(c, SendClose(cfg, c))
  {
    SendOne(c.sent, Close);
    SendKeepsOrder(c.sent, Close);
  }

  lemma SendEofKeeps(cfg: Config, c: Chan)
    requires Inv(cfg, c) && !c.flags.sentEof && AllReadClosed(c)
    ensures Inv(cfg, SendEof(c)) && Keeps(c, SendEof(c))
  {
    SendOne(c.sent, Eof);
    SendKeepsOrder(c.sent, Eof);
  }

  // -- Sending --

  lemma SendBytesKeeps(cfg: Config, c: Chan, w: Which, bytes: seq<U8>)
    requires Inv(cfg, c) && !c.flags.sentEof && |bytes| <= c.trans.window
    ensures var d := SendBytes(c.(input := Fed(c.input, w, bytes)), w, bytes); Inv(cfg, d) && Keeps(c, d)
  {
    var m := if w == Main then Data(bytes) else ExtData(bytes);
    SendOne(c.sent, m);
    SendKeepsOrder(c.sent, m);
  }

  lemma StillSending(cfg: Config, c: Chan, w: Which)
    requires Inv(cfg, c) && (if w == Main then c.fds.read >= 0 else c.fds.err >= 0 && ErrfdIsRead(c))
    ensures !c.flags.sentEof && !c.flags.sentClose && MaxRead(cfg, c, w) <= c.trans.window
  {
  }

  /** Reading and sending never trips the assertions of send_msg_channel_data. */
  lemma SendDataKeeps(cfg: Config, c: Chan, w: Which, io: ReadIO)
    requires Inv(cfg, c) && (if w == Main then c.fds.read >= 0 else c.fds.err >= 0 && ErrfdIsRead(c))
    ensures var r := SendData(cfg, c, w, io);
            r.Running? && Inv(cfg, r.chan) && Keeps(c, r.chan)
  {
    hide Closing, FlowKept, LedgerKept, EndsKept, Keeps, MaxRead;
    StillSending(cfg, c, w);
    KeepsSelf(c);
    var fd := if w == Main then c.fds.read else c.fds.err;
    var maxlen := MaxRead(cfg, c, w);
    ClosingKeeps(cfg, c, fd, ShutRd);
    if io.Got? {
      var bytes := io.bytes[..Min(|io.bytes|, maxlen)];
      SendBytesKeeps(cfg, c, w, bytes);
      var d := SendBytes(c.(input := Fed(c.input, w, bytes)), w, bytes);
      ClosingKeeps(cfg, d, fd, ShutRd);
      KeepsTransitive(c, d, Closing(cfg, d, fd, ShutRd));
    }
  }

  /** What a read does: its bytes are sent in one packet of at most what may be sent, and the input is closed exactly at
      its end, or when less than that is there while the channel is flushed. */
  lemma SendDataActs(cfg: Config, c: Chan, w: Which, io: ReadIO)
    requires Inv(cfg, c) && (if w == Main then c.fds.read >= 0 else c.fds.err >= 0 && ErrfdIsRead(c))
    ensures var r, most := SendData(cfg, c, w, io), MaxRead(cfg, c, w);
            var bytes := if io.Got? then io.bytes[..Min(|io.bytes|, most)] else [];
            && r.Running? && most <= c.trans.window && most <= c.trans.maxpacket
            && r.chan.sent == c.sent + (if bytes == [] then [] else [if w == Main then Data(bytes) else ExtData(bytes)])
            && r.chan.trans.window == c.trans.window - |bytes|
            && InputOf(r.chan.input, w) == InputOf(c.input, w) + bytes
            && ((if w == Main then r.chan.fds.read else r.chan.fds.err) < 0 <==>
                  most > 0 && (io.EndOfFile? || (c.flags.flushing && 0 < |bytes| < most)))
  {
    hide FlowKept, LedgerKept, InputKept;
    StillSending(cfg, c, w);
  }

  // -- Writing --

  /** With nothing in hand it does not matter for which stream. */
  lemma NothingInHand(cfg: Config, c: Chan, w: Which)
    requires HasStream(c.recv, w)
    ensures Midway(cfg, c, w, []) && DoneKept(cfg, c.recv) <==> Inv(cfg, c)
  {
  }

  lemma TakenKeeps(s: Stream, fd: int, more: seq<U8>, n: nat)
    requires StreamKept(s, fd, more) && n <= |s.buf| + |more|
    ensures var k := n - Min(n, |s.buf|);
            StreamKept(Taken(s, more, n), fd, more[k..])
                && |Taken(s, more, n).buf| + |more[k..]| + n == |s.buf| + |more|
  {
    Split(s.written, s.buf, more, n);
  }

  lemma FlowTaken(cfg: Config, r: Recv, f: Fds, w: Which, more: seq<U8>, n: nat)
    requires HasStream(r, w) && FlowKept(cfg, r, f, w, more) && n <= |StreamOf(r, w).buf| + |more|
    ensures var s := StreamOf(r, w);
            var q := WithStream(r, w, Taken(s, more, n)).(donelen := r.donelen + n);
            FlowKept(cfg, q, f, w, more[n - Min(n, |s.buf|)..]) && SameAccepted(r, q) && q.window == r.window
  {
    TakenKeeps(StreamOf(r, w), FdOf(f, w), more, n);
  }

  lemma FlowAdjusted(cfg: Config, r: Recv, f: Fds, w: Which, inHand: seq<U8>)
    requires FlowKept(cfg, r, f, w, inHand)
    ensures FlowKept(cfg, r.(window := r.window + r.donelen, donelen := 0), f, w, inHand)
    ensures WindowAsserts(cfg, r) && WindowAsserts(cfg, r.(window := r.window + r.donelen, donelen := 0))
  {
  }

  lemma Split(w: seq<U8>, b: seq<U8>, m: seq<U8>, n: nat)
    requires n <= |b| + |m|
    ensures var k := Min(n, |b|); w + b[..k] + m[..n - k] + b[k..] + m[n - k..] == w + b + m
  {
    if n <= |b| {
      assert m[..0] == [] && m[0..] == m;
      assert w + b[..n] + [] + b[n..] == w + b;
    } else {
      assert b[..|b|] == b && b[|b|..] == [];
      var j := n - |b|;
      assert w + b + m[..j] + [] + m[j..] == w + b + m;
    }
  }

  lemma WriteErrorKeeps(cfg: Config, c: Chan, w: Which, more: seq<U8>)
    requires Midway(cfg, c, w, more) && FdOf(c.fds, w) >= 0
    ensures var d := WriteOut(cfg, c, w, more, WriteError).0;
            Keeps(c, d) && !d.flags.sentClose && d.sent == c.sent && Midway(cfg, d, w, [])
                && d.recv.donelen == c.recv.donelen
  {
    var s := StreamOf(c.recv, w);
    assert s.written + s.buf <= s.written + s.buf + more;
    assert s.written + s.buf + [] == s.written + s.buf;
  }

  lemma OpenIsNotClosed(cfg: Config, c: Chan, w: Which, more: seq<U8>)
    requires Midway(cfg, c, w, more) && FdOf(c.fds, w) >= 0
    ensures !c.flags.sentClose
  {
  }

  lemma WriteTookKeeps(cfg: Config, c: Chan, w: Which, more: seq<U8>, n: nat)
    requires Midway(cfg, c, w, more) && FdOf(c.fds, w) >= 0
    ensures var (d, consumed, _) := WriteOut(cfg, c, w, more, Took(n));
            consumed <= |more| && Keeps(c, d) && !d.flags.sentClose && d.sent == c.sent
                && Midway(cfg, d, w, more[consumed..])
  {
    hide EndsKept, FlowKept, Taken;
    OpenIsNotClosed(cfg, c, w, more);
    FlowTaken(cfg, c.recv, c.fds, w, more, Min(n, Offered(cfg, StreamOf(c.recv, w), more)));
  }

  lemma WriteOutKeeps(cfg: Config, c: Chan, w: Which, more: seq<U8>, io: WriteIO)
    requires Midway(cfg, c, w, more) && FdOf(c.fds, w) >= 0
    ensures var (d, consumed, success) := WriteOut(cfg, c, w, more, io);
            && consumed <= |more| && Keeps(c, d) && !d.flags.sentClose && d.sent == c.sent
            && Midway(cfg, d, w, if success then more[consumed..] else [])
            && (!success ==> d.recv.donelen == c.recv.donelen)
  {
    match io
    case WouldBlock => assert more[0..] == more;
    case WriteError => WriteErrorKeeps(cfg, c, w, more);
    case Took(n) => WriteTookKeeps(cfg, c, w, more, n);
  }

  lemma AdjustKeeps(cfg: Config, c: Chan, w: Which, inHand: seq<U8>)
    requires Midway(cfg, c, w, inHand) && !c.flags.sentClose
    ensures var d := AdjustWindow(cfg, c);
            && Keeps(c, d) && Midway(cfg, d, w, inHand) && DoneKept(cfg, d.recv) && WindowAsserts(cfg, d.recv)
            && StreamOf(d.recv, w) == StreamOf(c.recv, w)
  {
    hide FlowKept, WellOrdered, SaysClose, SaysEof, DataOf, CreditOf;
    FlowAdjusted(cfg, c.recv, c.fds, w, inHand);
    if c.recv.donelen >= Extend(cfg) {
      SendOne(c.sent, Adjust(c.recv.donelen));
      SendKeepsOrder(c.sent, Adjust(c.recv.donelen));
    }
  }

  /** The assertions that end writechannel hold. */
  lemma WriteChannelKeeps(cfg: Config, c: Chan, w: Which, io: WriteIO)
    requires Inv(cfg, c) && HasStream(c.recv, w) && FdOf(c.fds, w) >= 0
    ensures var r := WriteChannel(cfg, c, w, io); r.Running? && Inv(cfg, r.chan) && Keeps(c, r.chan)
  {
    hide WriteOut, AdjustWindow, Keeps, FlowKept, LedgerKept, EndsKept;
    NothingInHand(cfg, c, w);
    OpenIsNotClosed(cfg, c, w, []);
    KeepsSelf(c);
    WriteOutKeeps(cfg, c, w, [], io);
    var out := if cfg.writev && StreamOf(c.recv, w).buf == [] then c else WriteOut(cfg, c, w, [], io).0;
    AdjustKeeps(cfg, out, w, []);
    NothingInHand(cfg, AdjustWindow(cfg, out), w);
    KeepsTransitive(c, out, AdjustWindow(cfg, out));
  }

  /** What writechannel does with a write: the bytes taken leave the front of the buffer and are written; an error
      closes the descriptor, and the bytes done are granted anew once they are a third of the window. */
  lemma WriteChannelActs(cfg: Config, c: Chan, w: Which, io: WriteIO)
    requires Inv(cfg, c) && HasStream(c.recv, w) && FdOf(c.fds, w) >= 0
    ensures var r := WriteChannel(cfg, c, w, io);
            && r.Running? && HasStream(r.chan.recv, w)
            && var s, t := StreamOf(c.recv, w), StreamOf(r.chan.recv, w);
               var n := if io.Took? then Min(io.n, |s.buf|) else 0;
               && t.written == s.written + s.buf[..n] && t.buf == s.buf[n..]
               && (s.buf != [] && io.WriteError? ==> t.failed && FdOf(r.chan.fds, w) < 0)
               && (!io.WriteError? ==> !t.failed && r.chan.fds == c.fds)
               && var done := c.recv.donelen + n;
                  if done >= cfg.window / 3 then
                    && r.chan.sent == c.sent + [Adjust(done)] && r.chan.recv.donelen == 0
                    && r.chan.recv.window == c.recv.window + done
                  else r.chan.sent == c.sent && r.chan.recv.donelen == done && r.chan.recv.window == c.recv.window
  {
    hide Inv, WriteOut, AdjustWindow, WindowAsserts;
    WriteChannelKeeps(cfg, c, w, io);
    NotFailed(cfg, c, w);
    var s := StreamOf(c.recv, w);
    WriteOutActs(cfg, c, w, io);
    assert s.buf[..0] == [] && s.buf[0..] == s.buf && s.written + [] == s.written;
    var out := if cfg.writev && s.buf == [] then c else WriteOut(cfg, c, w, [], io).0;
    AdjustActs(cfg, out);
  }

  lemma NotFailed(cfg: Config, c: Chan, w: Which)
    requires Inv(cfg, c) && HasStream(c.recv, w) && FdOf(c.fds, w) >= 0
    ensures !StreamOf(c.recv, w).failed
  {
    hide LedgerKept, EndsKept, InputKept;
  }

  lemma WriteOutActs(cfg: Config, c: Chan, w: Which, io: WriteIO)
    requires HasStream(c.recv, w)
    ensures var d, s := WriteOut(cfg, c, w, [], io).0, StreamOf(c.recv, w);
            var n := if io.Took? then Min(io.n, |s.buf|) else 0;
            && HasStream(d.recv, w) && d.sent == c.sent && d.recv.window == c.recv.window
            && d.recv.donelen == c.recv.donelen + n
            && StreamOf(d.recv, w) == s.(written := s.written + s.buf[..n], buf := s.buf[n..],
                                         failed := s.failed || io.WriteError?)
            && (io.WriteError? ==> FdOf(d.fds, w) < 0) && (!io.WriteError? ==> d.fds == c.fds)
  {
    var s := StreamOf(c.recv, w);
    assert s.buf[..0] == [] && s.buf[0..] == s.buf && s.written + [] == s.written;
    forall n: nat ensures s.written + s.buf[..Min(n, |s.buf|)] + [] == s.written + s.buf[..Min(n, |s.buf|)] {}
  }

  lemma AdjustActs(cfg: Config, c: Chan)
    ensures var d, done := AdjustWindow(cfg, c), c.recv.donelen;
            && d.fds == c.fds && d.recv.main == c.recv.main && d.recv.ext == c.recv.ext
            && if done >= cfg.window / 3 then
                 d.sent == c.sent + [Adjust(done)] && d.recv.donelen == 0 && d.recv.window == c.recv.window + done
               else d.sent == c.sent && d.recv.donelen == done && d.recv.window == c.recv.window
  {
  }

  // -- Receiving data --

  /** A packet within the window is never oversized for its buffer. */
  lemma WindowFits(cfg: Config, c: Chan, w: Which, n: nat)
    requires Inv(cfg, c) && HasStream(c.recv, w) && n <= c.recv.window
    ensures n <= Avail(cfg, StreamOf(c.recv, w))
  {
  }

  lemma AcceptKeeps(cfg: Config, c: Chan, w: Which, data: seq<U8>)
    requires Inv(cfg, c) && HasStream(c.recv, w) && FdOf(c.fds, w) >= 0 && |data| <= c.recv.window
    ensures Midway(cfg, Accept(c, w, data), w, data)
  {
    var s := StreamOf(c.recv, w);
    assert s.written + s.buf + [] == s.written + s.buf;
  }

  lemma StoreKeeps(cfg: Config, c: Chan, w: Which, data: seq<U8>)
    requires Midway(cfg, c, w, data) && DoneKept(cfg, c.recv)
    ensures Inv(cfg, Store(c, w, data)) && Keeps(c, Store(c, w, data))
  {
    hide FlowKept, LedgerKept, EndsKept;
    FlowStored(cfg, c.recv, c.fds, w, data, c.sent);
    NothingInHand(cfg, Store(c, w, data), w);
  }

  lemma FlowStored(cfg: Config, r: Recv, f: Fds, w: Which, data: seq<U8>, sent: seq<Msg>)
    requires HasStream(r, w) && FlowKept(cfg, r, f, w, data) && LedgerKept(r, sent)
    ensures var s := StreamOf(r, w);
            var q := WithStream(r, w, s.(buf := s.buf + data));
            FlowKept(cfg, q, f, w, []) && LedgerKept(q, sent) && SameAccepted(r, q)
  {
    var s := StreamOf(r, w);
    assert s.written + (s.buf + data) + [] == s.written + s.buf + data;
  }

  /** What taking data off the wire changes: it is accepted if the descriptor is open, else dropped. */
  ghost predicate Takes(c: Chan, d: Chan, w: Which, data: seq<U8>) {
    && HasStream(c.recv, w) && |data| <= c.recv.window
    && Keeps(Accept(c, w, data), d)
  }

  /** Data within the window trips neither the exit nor an assertion. */
  lemma RecvDataKeeps(cfg: Config, c: Chan, w: Which, data: seq<U8>, io: WriteIO)
    requires Inv(cfg, c) && !c.flags.recvEof && |data| <= c.recv.window
    ensures var r := RecvData(cfg, c, w, data, io);
            && r.Running? && Inv(cfg, r.chan)
            && if FdOf(c.fds, w) < 0 || !HasStream(c.recv, w) then r.chan == c else Takes(c, r.chan, w, data)
  {
    hide WriteOut, AdjustWindow, Keeps, FlowKept, LedgerKept, EndsKept;
    if !(FdOf(c.fds, w) < 0 || !HasStream(c.recv, w)) {
      WindowFits(cfg, c, w, |data|);
      AcceptKeeps(cfg, c, w, data);
      var c1 := Accept(c, w, data);
      WriteOutKeeps(cfg, c1, w, data, io);
      var (c2, consumed, success) := WriteOut(cfg, c1, w, data, io);
      var inHand := if success then data[consumed..] else [];
      AdjustKeeps(cfg, c2, w, inHand);
      var c3 := AdjustWindow(cfg, c2);
      KeepsTransitive(c1, c2, c3);
      if success {
        StoreKeeps(cfg, c3, w, inHand);
        KeepsTransitive(c1, c3, Store(c3, w, inHand));
      } else {
        NothingInHand(cfg, c3, w);
      }
    }
  }

  // -- Closing down --

  lemma FlushKeeps(cfg: Config, c: Chan, io1: ReadIO, io2: ReadIO)
    requires Inv(cfg, c)
    ensures var r := Flush(cfg, c, io1, io2); r.Running? && Inv(cfg, r.chan) && Keeps(c, r.chan)
  {
    hide SendData, Keeps, Inv;
    KeepsSelf(c);
    if c.flags.flushing {
      var c1 := c;
      if c.fds.read >= 0 && c.trans.window > 0 {
        SendDataKeeps(cfg, c, Main, io1);
        c1 := SendData(cfg, c, Main, io1).chan;
      }
      if ErrfdIsRead(c1) && c1.fds.err >= 0 && c1.trans.window > 0 {
        SendDataKeeps(cfg, c1, Extra, io2);
        KeepsTransitive(c, c1, SendData(cfg, c1, Extra, io2).chan);
      }
    }
  }

  lemma FinishKeeps(cfg: Config, c: Chan, allowed: bool)
    requires Inv(cfg, c)
    ensures Inv(cfg, Finish(cfg, c, allowed)) && Keeps(c, Finish(cfg, c, allowed))
  {
    var c1 := c;
    if !c.flags.sentEof && AllReadClosed(c) {
      SendEofKeeps(cfg, c);
      c1 := SendEof(c);
    }
    if !c1.flags.sentClose && AllReadClosed(c1) {
      SendCloseKeeps(cfg, c1);
      KeepsTransitive(c, c1, SendClose(cfg, c1));
    }
  }

  lemma StartFlushing(cfg: Config, c: Chan)
    requires Inv(cfg, c)
    ensures var d := c.(flags := c.flags.(flushing := true)); Inv(cfg, d) && Keeps(c, d)
  {
  }

  /** A channel is freed with CLOSE sent before, or then. */
  lemma Removing(cfg: Config, c: Chan)
    requires Inv(cfg, c) && c.flags.recvClose
    ensures var d := Removed(if c.flags.sentClose then c else SendClose(cfg, c)); Inv(cfg, d) && Keeps(c, d)
  {
    hide CloseAll, FlowKept, WellOrdered, SaysClose, SaysEof, DataOf, CreditOf;
    FlowShut(cfg, c.recv, c.fds);
    SendOne(c.sent, Close);
    if !c.flags.sentClose { SendKeepsOrder(c.sent, Close); }
  }

  lemma FlowShut(cfg: Config, r: Recv, f: Fds)
    requires FlowKept(cfg, r, f, Main, [])
    ensures FlowKept(cfg, r, ALL_CLOSED, Main, [])
  {
  }

  lemma CloseDownKeeps(cfg: Config, c: Chan, allowed: bool, io1: ReadIO, io2: ReadIO)
    requires Inv(cfg, c)
    ensures var r := CloseDown(cfg, c, allowed, io1, io2); r.Running? && Inv(cfg, r.chan) && Keeps(c, r.chan)
  {
    hide Flush, Finish, Closing, Keeps, Inv, WritePending;
    KeepsSelf(c);
    var c1 := if (c.flags.recvEof && !WritePending(c)) || (cfg.hasCheckClose && allowed)
              then Closing(cfg, c, c.fds.write, ShutWr) else c;
    ClosingKeeps(cfg, c, c.fds.write, ShutWr);
    FlushKeeps(cfg, c1, io1, io2);
    var c2 := Flush(cfg, c1, io1, io2).chan;
    KeepsTransitive(c, c1, c2);
    FinishKeeps(cfg, c2, allowed);
    KeepsTransitive(c, c2, Finish(cfg, c2, allowed));
  }

  /** check_close removes a channel only once CLOSE has gone both ways. */
  lemma CheckCloseKeeps(cfg: Config, c: Chan, exited: bool, io1: ReadIO, io2: ReadIO)
    requires Inv(cfg, c)
    ensures var r := CheckClose(cfg, c, exited, io1, io2); r.Running? && Inv(cfg, r.chan) && Keeps(c, r.chan)
  {
    hide CloseDown, SendClose, Keeps, Inv, WritePending;
    KeepsSelf(c);
    StartFlushing(cfg, c);
    var c1 := if !c.flags.flushing && !c.flags.sentClose && cfg.hasCheckClose && exited
              then c.(flags := c.flags.(flushing := true)) else c;
    var allowed := !cfg.hasCheckClose || c1.flags.sentClose || exited;
    if c1.flags.recvClose && !WritePending(c1) && allowed {
      Removing(cfg, c1);
      KeepsTransitive(c, c1, CheckClose(cfg, c, exited, io1, io2).chan);
    } else {
      CloseDownKeeps(cfg, c1, allowed, io1, io2);
      KeepsTransitive(c, c1, CloseDown(cfg, c1, allowed, io1, io2).chan);
    }
  }

  /** Reading never opens a descriptor nor withdraws EOF or CLOSE. */
  lemma SendDataShuts(cfg: Config, c: Chan, w: Which, io: ReadIO)
    requires SendData(cfg, c, w, io).Running?
    ensures Shuts(c, SendData(cfg, c, w, io).chan)
  {
  }

  predicate Shuts(c: Chan, d: Chan) {
    && (c.fds.write == FD_CLOSED ==> d.fds.write == FD_CLOSED) && d.live == c.live && d.flags == c.flags
    && d.recv == c.recv
  }

  lemma FlushShuts(cfg: Config, c: Chan, io1: ReadIO, io2: ReadIO)
    requires Flush(cfg, c, io1, io2).Running?
    ensures Shuts(c, Flush(cfg, c, io1, io2).chan)
  {
    hide SendData;
    if c.flags.flushing {
      var r1 := if c.fds.read >= 0 && c.trans.window > 0 then SendData(cfg, c, Main, io1) else Running(c);
      if c.fds.read >= 0 && c.trans.window > 0 { SendDataShuts(cfg, c, Main, io1); }
      if ErrfdIsRead(r1.chan) && r1.chan.fds.err >= 0 && r1.chan.trans.window > 0 {
        SendDataShuts(cfg, r1.chan, Extra, io2);
      }
    }
  }

  /** What check_close brings about. It frees the channel exactly when CLOSE has come, nothing is left to write and
      closing is allowed; else it ends the output once EOF has come and nothing is left to write, sends EOF once
      nothing more can be read, and sends CLOSE once nothing more can be read or written and closing is allowed. But for
      the flushing of a channel whose process is gone it ends the output and sends CLOSE only then. */
  lemma CheckCloseActs(cfg: Config, c: Chan, exited: bool, io1: ReadIO, io2: ReadIO)
    requires Inv(cfg, c) && c.live
    ensures var r, allowed := CheckClose(cfg, c, exited, io1, io2), !cfg.hasCheckClose || c.flags.sentClose || exited;
            && r.Running?
            && (!r.chan.live <==> c.flags.recvClose && !WritePending(c) && allowed)
            && (!r.chan.live ==> r.chan.flags.sentClose)
            && (r.chan.live && c.flags.recvEof && !WritePending(c) ==> r.chan.fds.write == FD_CLOSED)
            && (r.chan.live && AllReadClosed(r.chan) ==> r.chan.flags.sentEof)
            && (r.chan.live && AllReadClosed(r.chan) && r.chan.fds.write == FD_CLOSED && allowed ==>
                  !WritePending(r.chan) ==> r.chan.flags.sentClose)
            && (r.chan.live && c.fds.write >= 0 > r.chan.fds.write && !r.chan.flags.flushing ==>
                  c.flags.recvEof && !WritePending(c))
            && (r.chan.flags.sentClose && !c.flags.sentClose ==> allowed && (!WritePending(c) || r.chan.flags.flushing))
            && (r.chan.flags.flushing <==> c.flags.flushing || (!c.flags.sentClose && cfg.hasCheckClose && exited))
  {
    hide CloseDown, Inv, SendClose, WritePending, AllReadClosed;
    CheckCloseKeeps(cfg, c, exited, io1, io2);
    CloseIsEof(cfg, CheckClose(cfg, c, exited, io1, io2).chan);
    SendCloseSays(cfg, c);
    var flags := c.flags.(flushing := true);
    SendCloseSays(cfg, c.(flags := flags));
    ClosedWhenSent(cfg, c);
    SamePending(c, flags);
    var c1 := if !c.flags.flushing && !c.flags.sentClose && cfg.hasCheckClose && exited then c.(flags := flags) else c;
    var allowed := !cfg.hasCheckClose || c1.flags.sentClose || exited;
    StartFlushing(cfg, c);
    CloseDownKeeps(cfg, c1, allowed, io1, io2);
    CloseDownActs(cfg, c1, allowed, io1, io2);
  }

  lemma SamePending(c: Chan, flags: Flags)
    ensures WritePending(c.(flags := flags)) == WritePending(c)
  {
  }

  lemma SendCloseSays(cfg: Config, c: Chan)
    ensures SendClose(cfg, c).flags.sentClose && SendClose(cfg, c).flags.flushing == c.flags.flushing
  {
  }

  lemma ClosedWhenSent(cfg: Config, c: Chan)
    requires Inv(cfg, c)
    ensures c.flags.sentClose ==> c.fds.write < 0
  {
    hide FlowKept, LedgerKept, InputKept;
  }

  /** CLOSE counts as EOF. */
  lemma CloseIsEof(cfg: Config, c: Chan)
    requires Inv(cfg, c)
    ensures c.flags.sentClose ==> c.flags.sentEof
  {
    hide FlowKept, LedgerKept, InputKept;
  }

  lemma CloseDownActs(cfg: Config, c: Chan, allowed: bool, io1: ReadIO, io2: ReadIO)
    requires CloseDown(cfg, c, allowed, io1, io2).Running?
    ensures var d := CloseDown(cfg, c, allowed, io1, io2).chan;
            && d.live == c.live
            && (c.flags.recvEof && !WritePending(c) ==> d.fds.write == FD_CLOSED)
            && (AllReadClosed(d) && !d.flags.sentClose ==> d.flags.sentEof)
            && (AllReadClosed(d) && d.fds.write == FD_CLOSED && allowed && !WritePending(d) ==> d.flags.sentClose)
            && d.flags.flushing == c.flags.flushing
            && (c.fds.write >= 0 > d.fds.write && !c.flags.flushing && !(cfg.hasCheckClose && allowed) ==>
                  c.flags.recvEof && !WritePending(c))
            && (d.flags.sentClose && !c.flags.sentClose && !c.flags.flushing && !(cfg.hasCheckClose && allowed) ==>
                  !WritePending(c))
            && (d.flags.sentClose && !c.flags.sentClose ==> allowed)
  {
    hide Flush, Finish, Closing, WritePending, AllReadClosed;
    var c1 := if (c.flags.recvEof && !WritePending(c)) || (cfg.hasCheckClose && allowed)
              then Closing(cfg, c, c.fds.write, ShutWr) else c;
    WriteEnds(cfg, c);
    FlushShuts(cfg, c1, io1, io2);
    NoFlush(cfg, c1, io1, io2);
    FinishActs(cfg, Flush(cfg, c1, io1, io2).chan, allowed);
  }

  lemma NoFlush(cfg: Config, c: Chan, io1: ReadIO, io2: ReadIO)
    ensures !c.flags.flushing ==> Flush(cfg, c, io1, io2) == Running(c)
  {
  }

  /** Shutting the write side closes the write descriptor. */
  lemma WriteEnds(cfg: Config, c: Chan)
    ensures Closing(cfg, c, c.fds.write, ShutWr).fds.write == FD_CLOSED
    ensures Closing(cfg, c, c.fds.write, ShutWr).live == c.live
    ensures Closing(cfg, c, c.fds.write, ShutWr).flags == c.flags
  {
  }

  lemma FinishActs(cfg: Config, c: Chan, allowed: bool)
    ensures var d := Finish(cfg, c, allowed);
            && d.live == c.live && (c.fds.write == FD_CLOSED ==> d.fds.write == FD_CLOSED)
            && (AllReadClosed(d) && !d.flags.sentClose ==> d.flags.sentEof)
            && (AllReadClosed(d) && d.fds.write == FD_CLOSED && allowed && !WritePending(d) ==> d.flags.sentClose)
            && (d.flags.sentClose && !c.flags.sentClose ==> d.flags.sentEof)
            && (c.flags.sentEof ==> d.flags.sentEof)
            && d.flags.flushing == c.flags.flushing && (c.fds.write >= 0 ==> d.fds.write == c.fds.write)
            && (d.flags.sentClose && !c.flags.sentClose ==> allowed && !WritePending(c))
  {
  }

  /** A channel on which CLOSE has gone both ways is freed by the next check_close, whatever its type says. */
  lemma ClosedIsRemoved(cfg: Config, c: Chan, exited: bool, io1: ReadIO, io2: ReadIO)
    requires Inv(cfg, c) && c.live && c.flags.sentClose && c.flags.recvClose
    ensures CheckClose(cfg, c, exited, io1, io2).Running? && !CheckClose(cfg, c, exited, io1, io2).chan.live
  {
    CheckCloseActs(cfg, c, exited, io1, io2);
  }

  ghost predicate Good(cfg: Config, c: Chan, r: Outcome) { r.Running? && Inv(cfg, r.chan) && Keeps(c, r.chan) }

  lemma GoodTransitive(cfg: Config, c: Chan, d: Chan, r: Outcome)
    requires Keeps(c, d) && Good(cfg, d, r)
    ensures Good(cfg, c, r)
  {
    KeepsTransitive(c, d, r.chan);
  }

  lemma ReadsKeep(cfg: Config, c: Chan, t: Turn)
    requires Inv(cfg, c)
    ensures Good(cfg, c, Reads(cfg, c, t).0)
  {
    hide SendData, Inv, Keeps;
    KeepsSelf(c);
    var c1 := c;
    if c.fds.read >= 0 && t.read {
      SendDataKeeps(cfg, c, Main, t.in1);
      c1 := SendData(cfg, c, Main, t.in1).chan;
    }
    if ErrfdIsRead(c1) && c1.fds.err >= 0 && t.readErr {
      SendDataKeeps(cfg, c1, Extra, t.in2);
      GoodTransitive(cfg, c, c1, SendData(cfg, c1, Extra, t.in2));
    }
  }

  lemma WritesKeep(cfg: Config, c: Chan, t: Turn)
    requires Inv(cfg, c)
    ensures Good(cfg, c, Writes(cfg, c, t).0)
  {
    hide WriteChannel, Inv, Keeps;
    KeepsSelf(c);
    var c1 := c;
    if c.fds.write >= 0 && t.write {
      WriteChannelKeeps(cfg, c, Main, t.out1);
      c1 := WriteChannel(cfg, c, Main, t.out1).chan;
    }
    if !ErrfdIsRead(c1) && c1.fds.err >= 0 && t.writeErr {
      WriteChannelKeeps(cfg, c1, Extra, t.out2);
      GoodTransitive(cfg, c, c1, WriteChannel(cfg, c1, Extra, t.out2));
    }
  }

  /** One turn of channelio keeps the invariant and trips no assertion. */
  lemma ChannelIOKeeps(cfg: Config, c: Chan, t: Turn)
    requires Inv(cfg, c)
    ensures Good(cfg, c, ChannelIO(cfg, c, t))
  {
    hide Reads, Writes, CheckClose, Inv, Keeps;
    ReadsKeep(cfg, c, t);
    var c1 := Reads(cfg, c, t).0.chan;
    WritesKeep(cfg, c1, t);
    var c2 := Writes(cfg, c1, t).0.chan;
    KeepsTransitive(c, c1, c2);
    CheckCloseKeeps(cfg, c2, t.exited, t.flush1, t.flush2);
    GoodTransitive(cfg, c, c2, CheckClose(cfg, c2, t.exited, t.flush1, t.flush2));
  }

  /** check_close leaves the receiving side alone. */
  lemma CheckCloseSpares(cfg: Config, c: Chan, exited: bool, io1: ReadIO, io2: ReadIO)
    requires CheckClose(cfg, c, exited, io1, io2).Running?
    ensures CheckClose(cfg, c, exited, io1, io2).chan.recv == c.recv
  {
    hide Flush, Finish, CloseFd, CloseAll;
    var flags := c.flags.(flushing := true);
    var c1 := if !c.flags.flushing && !c.flags.sentClose && cfg.hasCheckClose && exited then c.(flags := flags) else c;
    var allowed := !cfg.hasCheckClose || c1.flags.sentClose || exited;
    var c2 := if (c1.flags.recvEof && !WritePending(c1)) || (cfg.hasCheckClose && allowed)
              then Closing(cfg, c1, c1.fds.write, ShutWr) else c1;
    if !(c1.flags.recvClose && !WritePending(c1) && allowed) {
      FlushShuts(cfg, c2, io1, io2);
      FinishSpares(cfg, Flush(cfg, c2, io1, io2).chan, allowed);
    }
  }

  lemma FinishSpares(cfg: Config, c: Chan, allowed: bool)
    ensures Finish(cfg, c, allowed).recv == c.recv
  {
    hide CloseAll;
  }

  lemma ReadsSpare(cfg: Config, c: Chan, t: Turn)
    requires Reads(cfg, c, t).0.Running?
    ensures Reads(cfg, c, t).0.chan.recv == c.recv
  {
    hide SendData;
    var c1 := c;
    if c.fds.read >= 0 && t.read {
      SendDataShuts(cfg, c, Main, t.in1);
      c1 := SendData(cfg, c, Main, t.in1).chan;
    }
    if ErrfdIsRead(c1) && c1.fds.err >= 0 && t.readErr { SendDataShuts(cfg, c1, Extra, t.in2); }
  }

  /** A turn in which an open output is ready writes the bytes that are taken, from the front of the buffer. */
  lemma TurnWrites(cfg: Config, c: Chan, t: Turn)
    requires Inv(cfg, c) && t.write && Reads(cfg, c, t).0.Running? && Reads(cfg, c, t).0.chan.fds.write >= 0
    ensures var r, s := ChannelIO(cfg, c, t), c.recv.main;
            var n := if t.out1.Took? then Min(t.out1.n, |s.buf|) else 0;
            && r.Running? && r.chan.recv.main.written == s.written + s.buf[..n] && r.chan.recv.main.buf == s.buf[n..]
  {
    hide Reads, CheckClose, Inv, Keeps, WriteChannel;
    ChannelIOKeeps(cfg, c, t);
    ReadsKeep(cfg, c, t);
    ReadsSpare(cfg, c, t);
    var c1 := Reads(cfg, c, t).0.chan;
    WriteChannelActs(cfg, c1, Main, t.out1);
    var d := WriteChannel(cfg, c1, Main, t.out1).chan;
    if !ErrfdIsRead(d) && d.fds.err >= 0 && t.writeErr { OtherSpared(cfg, d, t.out2); }
    CheckCloseSpares(cfg, Writes(cfg, c1, t).0.chan, t.exited, t.flush1, t.flush2);
  }

  lemma OtherSpared(cfg: Config, c: Chan, io: WriteIO)
    requires c.recv.ext.Some?
    ensures WriteChannel(cfg, c, Extra, io).Running? ==> WriteChannel(cfg, c, Extra, io).chan.recv.main == c.recv.main
  {
  }

  /** After EOF or CLOSE has come the output is ended at once if nothing waits for it, and after CLOSE the channel is
      freed at once unless closing is not allowed. */
  lemma EndsAtOnce(cfg: Config, c: Chan, m: Msg, t: Turn)
    requires Inv(cfg, c) && c.live && (m.Eof? || m.Close?)
    ensures var r := Receive(cfg, c, m, t);
            && r.Running? && r.chan.flags.recvEof && (m.Close? ==> r.chan.flags.recvClose)
            && (r.chan.live && !WritePending(c) ==> r.chan.fds.write == FD_CLOSED)
            && (m.Close? && !WritePending(c) && !cfg.hasCheckClose ==> !r.chan.live)
  {
    hide CheckClose, Inv, WritePending, Keeps;
    ReceiveKeeps(cfg, c, m, t);
    var g := if m.Eof? then c.flags.(recvEof := true) else c.flags.(recvEof := true, recvClose := true);
    var c1 := c.(got := c.got + 1, flags := g);
    Aside(cfg, c, c.trans, true, g.recvClose, g.awaitOpen, c.got + 1);
    SamePending(c.(got := c.got + 1), g);
    StillPending(c);
    CheckCloseActs(cfg, c1, t.exited, t.flush1, t.flush2);
    CheckCloseKeeps(cfg, c1, t.exited, t.flush1, t.flush2);
    KeepsEnds(c1, Receive(cfg, c, m, t).chan);
  }

  lemma StillPending(c: Chan)
    ensures WritePending(c.(got := c.got + 1)) == WritePending(c)
  {
  }

  lemma KeepsEnds(c: Chan, d: Chan)
    requires Keeps(c, d)
    ensures d.flags.recvEof == c.flags.recvEof && d.flags.recvClose == c.flags.recvClose
  {
  }

  // -- Messages from the other end --

  /** Whether data for a stream is stored rather than dropped. */
  predicate Stores(cfg: Config, c: Chan, w: Which) {
    FdOf(c.fds, w) >= 0 && HasStream(c.recv, w) && (w == Main || cfg.acceptsExt)
  }

  /** What may come next on the channel for it not to be a protocol error. */
  predicate Expected(c: Chan, m: Msg) {
    match m
    case Open(_, _) => false
    case Confirm(_, _) => c.flags.awaitOpen
    case Adjust(n) => c.trans.window + n <= TRANS_MAX_WINDOW
    case Data(bytes) => !c.flags.recvEof && |bytes| <= c.recv.window
    case ExtData(bytes) => !c.flags.recvEof && |bytes| <= c.recv.window
    case _ => true
  }

  /** The direct effect of a message, before any handler writes or closes. */
  function After(cfg: Config, c: Chan, m: Msg): Chan
    requires Expected(c, m)
  {
    var c1 := c.(got := c.got + 1);
    match m
    case Open(_, _) => c1
    case Confirm(n, maxpacket) => c1.(flags := c.flags.(awaitOpen := false), trans := Trans(n, maxpacket))
    case Adjust(n) => c1.(trans := c.trans.(window := c.trans.window + n))
    case Data(bytes) => if Stores(cfg, c, Main) then Accept(c1, Main, bytes) else c1
    case ExtData(bytes) => if Stores(cfg, c, Extra) then Accept(c1, Extra, bytes) else c1
    case Eof => c1.(flags := c.flags.(recvEof := true))
    case Close => c1.(flags := c.flags.(recvEof := true, recvClose := true))
  }

  /** A turn of the flags and the sending side alone does not touch the invariant. */
  lemma Aside(cfg: Config, c: Chan, trans: Trans, eof: bool, close: bool, await: bool, got: nat)
    requires Inv(cfg, c) && (eof || (eof == c.flags.recvEof && close == c.flags.recvClose))
    requires (c.flags.recvClose ==> close)
    ensures Inv(cfg, c.(trans := trans, got := got,
                flags := c.flags.(recvEof := eof, recvClose := close, awaitOpen := await)))
  {
  }

  /** Below the largest window the 32-bit arithmetic of an adjustment is exact; the window never exceeds the largest,
      and from any window that does not, more is added as far as an adjustment may add and the window may grow. */
  lemma WidenedAdds(window: nat, n: nat)
    ensures window + n <= TRANS_MAX_WINDOW ==> Widened(window, n) == window + n
    ensures Widened(window, n) <= 500_000_000
    ensures window <= 500_000_000 && n <= 500_000_000 ==>
              Widened(window, n) == if window + n <= 500_000_000 then window + n else 500_000_000
    ensures window <= 500_000_000 <= n ==> Widened(window, n) == 500_000_000
  {
  }

  /** No message that may come next stops the program, and each has its direct effect and no other. */
  lemma ReceiveKeeps(cfg: Config, c: Chan, m: Msg, t: Turn)
    requires Inv(cfg, c) && c.live && Expected(c, m)
    ensures Good(cfg, After(cfg, c, m), Receive(cfg, c, m, t))
  {
    hide RecvData, CheckClose, Inv, Keeps, Accept, Widened;
    var c1 := c.(got := c.got + 1);
    var g := c.flags;
    WidenedAdds(c.trans.window, if m.Adjust? then m.n else 0);
    KeepsSelf(After(cfg, c, m));
    match m
    case Open(_, _) =>
    case Confirm(n, maxpacket) => Aside(cfg, c, Trans(n, maxpacket), g.recvEof, g.recvClose, false, c.got + 1);
    case Adjust(n) => Aside(cfg, c, c.trans.(window := c.trans.window + n), g.recvEof, g.recvClose, g.awaitOpen,
        c.got + 1);
    case Data(bytes) =>
      Aside(cfg, c, c.trans, g.recvEof, g.recvClose, g.awaitOpen, c.got + 1);
      RecvDataKeeps(cfg, c1, Main, bytes, t.out1);
    case ExtData(bytes) =>
      Aside(cfg, c, c.trans, g.recvEof, g.recvClose, g.awaitOpen, c.got + 1);
      RecvDataKeeps(cfg, c1, Extra, bytes, t.out2);
    case Eof =>
      Aside(cfg, c, c.trans, true, g.recvClose, g.awaitOpen, c.got + 1);
      CheckCloseKeeps(cfg, c1.(flags := g.(recvEof := true)), t.exited, t.flush1, t.flush2);
    case Close =>
      Aside(cfg, c, c.trans, true, true, g.awaitOpen, c.got + 1);
      CheckCloseKeeps(cfg, c1.(flags := g.(recvEof := true, recvClose := true)), t.exited, t.flush1, t.flush2);
  }

  /** The messages that end the program: an opening or a confirmation out of turn, and data after EOF or beyond the
      window, unless it is for a stream that is not taken. */
  predicate Refused(cfg: Config, c: Chan, m: Msg) {
    match m
    case Open(_, _) => true
    case Confirm(_, _) => !c.flags.awaitOpen
    case Data(bytes) => c.flags.recvEof || (Stores(cfg, c, Main) && |bytes| > c.recv.window)
    case ExtData(bytes) => cfg.acceptsExt && (c.flags.recvEof || (Stores(cfg, c, Extra) && |bytes| > c.recv.window))
    case _ => false
  }

  lemma RefusedExactly(cfg: Config, c: Chan, m: Msg, t: Turn)
    requires Inv(cfg, c) && c.live
    ensures Receive(cfg, c, m, t).Stopped? <==> Refused(cfg, c, m)
  {
    hide CheckClose, Taking, Inv, Keeps;
    if IsData(m) {
      if Expected(c, m) {
        ReceiveKeeps(cfg, c, m, t);
      } else if c.recv.ext.Some? {
        WindowFits(cfg, c, Extra, c.recv.window);
      }
      WindowFits(cfg, c, Main, c.recv.window);
    } else if !m.Open? && !m.Adjust? && Expected(c, m) {
      ReceiveKeeps(cfg, c, m, t);
    }
  }

  lemma StartKeeps(cfg: Config, c: Chan, fds: Fds, extra: bool)
    requires Inv(cfg, c) && CanStart(c, fds)
    ensures Inv(cfg, Start(c, fds, extra))
  {
  }

  lemma NewChannelKeeps(cfg: Config, first: Msg, trans: Trans, await: bool, got: nat)
    requires GoodConfig(cfg) && IsOpening(first) && first.window == cfg.window
    ensures Inv(cfg, NewChannel(cfg, first, trans, await, got))
  {
    SendOne([], first);
    assert [] + [first] == [first];
  }
}
