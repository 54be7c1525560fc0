/** A channel as the program keeps it, updated in place; every method is proved to do what the
    function of the same purpose in ChannelModel does. */
module Channels {
  import opened Bits
  import opened ChannelModel
  import opened Common
  import opened CircBuffers

  class Channel {
    const cfg: Config
    const writebuf: CircBuffer
    var extrabuf: CircBuffer?
    var recvwindow: nat
    var recvdonelen: nat
    var trans: Trans
    var fds: Fds
    var flags: Flags
    /** The messages handed to encrypt_packet, those taken, and whether the channel is in the table. */
    var sent: seq<Msg>
    var got: nat
    var live: bool
    /** What has been read; and what each stream has accepted and written, and its buffer as a sequence. */
    ghost var input: Input
    ghost var main: Stream
    ghost var ext: Stream

    ghost predicate Holds(b: CircBuffer, s: Stream)
      reads b, b.data
    {
      b.Valid() && b.size == cfg.window && b.Contents() == s.buf
    }

    ghost predicate Valid()
      reads this`main, this`ext, this`extrabuf, writebuf, writebuf.data, extrabuf
      reads if extrabuf == null then null else extrabuf.data
    {
      && Holds(writebuf, main)
      && (extrabuf != null ==>
            extrabuf != writebuf && Holds(extrabuf, ext) && (writebuf.data == null || extrabuf.data != writebuf.data))
    }

    /** The objects of the buffers. */
    ghost function Buffers(): set<object>
      reads this`extrabuf, writebuf, extrabuf
    {
      {writebuf} + (if writebuf.data == null then {} else {writebuf.data}) +
      (if extrabuf == null then {} else {extrabuf} + (if extrabuf.data == null then {} else {extrabuf.data}))
    }

    ghost function RecvPart(): Recv
      reads this`recvwindow, this`recvdonelen, this`main, this`ext, this`extrabuf
    {
      Recv(recvwindow, recvdonelen, main, if extrabuf == null then None else Some(ext))
    }

    /** The channel as a value. */
    ghost function Abs(): Chan
      reads this
    {
      Chan(RecvPart(), trans, fds, flags, input, sent, got, live)
    }

    /** newchannel. */
    constructor (cfg: Config, first: Msg, trans: Trans, await: bool, got: nat)
      requires 0 < cfg.window <= MAX_CBUF_SIZE
      ensures Valid() && Abs() == NewChannel(cfg, first, trans, await, got) && this.cfg == cfg && fresh(Buffers())
    {
      this.cfg := cfg;
      var buf := new CircBuffer(cfg.window);
      writebuf := buf;
      extrabuf := null;
      recvwindow, recvdonelen, this.trans := cfg.window, 0, trans;
      fds := Fds(FD_UNINIT, FD_UNINIT, FD_CLOSED);
      flags := Flags(false, false, false, false, false, await);
      sent, this.got, live := [first], got, true;
      input, main, ext := Input([], []), EMPTY, EMPTY;
    }

    // -- Closing --

    /** close_chan_fd. */
    method CloseChanFd(fd: int, how: How)
      modifies this`fds
      ensures fds == CloseFd(cfg, old(fds), RecvPart().ext.None?, fd, how)
    {
      var closein, closeout := false, false;
      if cfg.sepfds {
        if how == ShutRd { closeout := true; } else { closein := true; }
      } else {
        closein, closeout := true, true;
      }
      if closeout && fd == fds.read { fds := fds.(read := FD_CLOSED); }
      if closeout && extrabuf == null && fd == fds.err { fds := fds.(err := FD_CLOSED); }
      if closein && fd == fds.write { fds := fds.(write := FD_CLOSED); }
      if closein && extrabuf != null && fd == fds.err { fds := fds.(err := FD_CLOSED); }
    }

    method CloseThem()
      modifies this`fds
      ensures fds == CloseAll(cfg, old(fds), RecvPart().ext.None?)
    {
      hide CloseFd, RecvPart;
      CloseChanFd(fds.read, ShutRd);
      CloseChanFd(fds.err, ShutRdWr);
      CloseChanFd(fds.write, ShutWr);
    }

    method SendMsgChannelClose()
      modifies this`sent, this`flags, this`fds
      ensures Abs() == SendClose(cfg, old(Abs()))
    {
      hide CloseAll, RecvPart;
      sent := sent + [Close];
      flags := flags.(sentEof := true, sentClose := true);
      CloseThem();
    }

    method SendMsgChannelEof()
      modifies this`sent, this`flags
      ensures Abs() == SendEof(old(Abs()))
    {
      sent := sent + [Eof];
      flags := flags.(sentEof := true);
    }

    // -- Writing to the local side --

    /** The first k bytes leave the buffer. */
    method DropBytes(w: Which, k: nat)
      requires Valid() && HasStream(RecvPart(), w) && k <= |StreamOf(RecvPart(), w).buf|
      modifies this`main, this`ext, if w == Main then writebuf else extrabuf
      ensures Valid() && Buffers() == old(Buffers())
      ensures var s := old(StreamOf(RecvPart(), w)); RecvPart() == WithStream(old(RecvPart()), w, s.(buf := s.buf[k..]))
    {
      hide Ring, Placed;
      var cbuf := if w == Main then writebuf else extrabuf;
      cbuf.IncrRead(k);
      if w == Main { main := main.(buf := main.buf[k..]); } else { ext := ext.(buf := ext.buf[k..]); }
    }

    /** A write to the descriptor took n bytes of what was offered, which was the buffer and then more. */
    method TookBytes(w: Which, more: seq<U8>, n: nat, offered: seq<U8>) returns (consumed: nat)
      requires Valid() && HasStream(RecvPart(), w) && n <= |offered| && offered <= StreamOf(RecvPart(), w).buf + more
      modifies this`recvdonelen, this`main, this`ext, if w == Main then writebuf else extrabuf
      ensures Valid() && Buffers() == old(Buffers())
      ensures consumed == n - Min(n, |old(StreamOf(RecvPart(), w)).buf|)
      ensures RecvPart() == WithStream(old(RecvPart()), w,
                  Taken(old(StreamOf(RecvPart(), w)), more, n)).(donelen := old(RecvPart()).donelen + n)
    {
      hide Ring, Placed, Taken, Buffers;
      ghost var s := StreamOf(RecvPart(), w);
      TakenWrites(s, more, n, offered);
      var used := if w == Main then writebuf.used else extrabuf.used;
      var k := Min(used, n);
      DropBytes(w, k);
      if w == Main {
        main := main.(written := main.written + offered[..n]);
      } else {
        ext := ext.(written := ext.written + offered[..n]);
      }
      consumed := n - k;
      recvdonelen := recvdonelen + n;
    }

    /** The write failed: the descriptor is closed and what is buffered for it stays unwritten. */
    method WriteFailed(w: Which)
      requires Valid() && HasStream(RecvPart(), w)
      modifies this`main, this`ext, this`fds
      ensures Valid() && Buffers() == old(Buffers())
      ensures Abs() == WriteOut(cfg, old(Abs()), w, [], WriteError).0
    {
      hide Ring, Placed, CloseFd;
      if w == Main { main := main.(failed := true); } else { ext := ext.(failed := true); }
      CloseChanFd(if w == Main then fds.write else fds.err, ShutWr);
    }

    /** The bytes of the buffer, in the pieces that cbuf_readptrs gives. */
    method Pieces(w: Which) returns (p1: seq<U8>, p2: seq<U8>)
      requires Valid() && HasStream(RecvPart(), w)
      ensures p1 + p2 == StreamOf(RecvPart(), w).buf
    {
      hide Ring, Placed;
      var cbuf := if w == Main then writebuf else extrabuf;
      var len1, len2 := cbuf.ReadPtrs();
      if cbuf.data == null { return [], []; }
      p1, p2 := cbuf.data[cbuf.readpos..cbuf.readpos + len1], cbuf.data[..len2];
    }

    /** writechannel_writev: one gathering write of the buffer's pieces and of more, if there is any to speak of. */
    method WriteChannelWritev(w: Which, more: Option<seq<U8>>, io: WriteIO) returns (consumed: nat, success: bool)
      requires Valid() && HasStream(RecvPart(), w) && cfg.writev
      modifies this`recvdonelen, this`main, this`ext, this`fds, if w == Main then writebuf else extrabuf
      ensures Valid() && Buffers() == old(Buffers())
      ensures (Abs(), consumed, success) == Attempt(cfg, old(Abs()), w, more, io)
    {
      hide Taken, CloseFd, RecvPart, Valid, Buffers;
      var p1, p2 := Pieces(w);
      if |p1| == 0 && |p2| == 0 && more.None? { return 0, true; }
      var iov := p1 + p2 + Given(more);
      match io
      case WouldBlock => return 0, true;
      case WriteError =>
        WriteFailed(w);
        return 0, false;
      case Took(n) =>
        consumed := TookBytes(w, Given(more), Min(n, |iov|), iov);
        success := true;
    }

    /** writechannel_fallback: one write of the first piece; more is left to the caller. Returns what the write did. */
    method WriteChannelFallback(w: Which, io: WriteIO) returns (success: bool, did: WriteIO)
      requires Valid() && HasStream(RecvPart(), w) && !cfg.writev
      modifies this`recvdonelen, this`main, this`ext, this`fds, if w == Main then writebuf else extrabuf
      ensures Valid() && Buffers() == old(Buffers()) && Did(did, io)
      ensures (Abs(), 0, success) == WriteOut(cfg, old(Abs()), w, [], did)
    {
      hide CloseFd, Taken, RecvPart, Valid, Buffers;
      var p1, p2 := Pieces(w);
      did := io;
      match io
      case WouldBlock => success := true;
      case WriteError =>
        WriteFailed(w);
        success := false;
      case Took(n0) =>
        var n := Min(n0, |p1|);
        did := Took(n);
        var none := TookBytes(w, [], n, p1);
        success := true;
    }

    /** The window adjustment of writechannel: what was written is granted again once it is a third of the window. */
    method GrantWindow()
      modifies this`recvwindow, this`recvdonelen, this`sent
      ensures Abs() == AdjustWindow(cfg, old(Abs()))
    {
      if recvdonelen >= Extend(cfg) {
        sent := sent + [Adjust(recvdonelen)];
        recvwindow := recvwindow + recvdonelen;
        recvdonelen := 0;
      }
    }

    /** The assertions at the end of writechannel. */
    method WindowFits() returns (ok: bool)
      requires Valid()
      ensures ok <==> WindowAsserts(cfg, RecvPart())
    {
      hide Ring, Placed;
      ok := recvwindow <= cfg.window && recvwindow <= writebuf.Avail()
          && (extrabuf == null || recvwindow <= extrabuf.Avail());
    }

    method WriteChannel(w: Which, more: Option<seq<U8>>, io: WriteIO)
      returns (consumed: nat, success: bool, did: WriteIO, ok: bool)
      requires Valid() && HasStream(RecvPart(), w)
      modifies this`recvwindow, this`recvdonelen, this`main, this`ext, this`fds, this`sent,
               if w == Main then writebuf else extrabuf
      ensures Valid() && HasStream(RecvPart(), w) && Buffers() == old(Buffers()) && Did(did, io)
      ensures Abs() == AdjustWindow(cfg, Attempt(cfg, old(Abs()), w, more, did).0)
      ensures consumed == Attempt(cfg, old(Abs()), w, more, did).1
      ensures success == Attempt(cfg, old(Abs()), w, more, did).2
      ensures ok <==> WindowAsserts(cfg, RecvPart())
    {
      hide WriteOut, AdjustWindow, WindowAsserts, Valid, Buffers;
      if cfg.writev {
        did := io;
        consumed, success := WriteChannelWritev(w, more, io);
      } else {
        success, did := WriteChannelFallback(w, io);
        consumed := 0;
        FallbackIgnores(cfg, old(Abs()), w, Given(more), did);
      }
      GrantWindow();
      ok := WindowFits();
    }

    // -- Data from the wire --

    method AcceptBytes(w: Which, data: seq<U8>)
      requires Valid() && HasStream(RecvPart(), w) && |data| <= RecvPart().window
      modifies this`recvwindow, this`main, this`ext
      ensures Valid() && HasStream(RecvPart(), w) && Abs() == Accept(old(Abs()), w, data)
    {
      hide Ring, Placed;
      if w == Main {
        main := main.(accepted := main.accepted + data);
      } else {
        ext := ext.(accepted := ext.accepted + data);
      }
      recvwindow := recvwindow - |data|;
    }

    /** What was not written goes into the ring buffer, in one or two rounds. */
    method StoreBytes(w: Which, data: seq<U8>) returns (rounds: nat)
      requires Valid() && HasStream(RecvPart(), w) && |data| <= Avail(cfg, StreamOf(RecvPart(), w))
      modifies this`main, this`ext, Buffers()
      ensures Valid() && Abs() == Store(old(Abs()), w, data) && fresh(Buffers() - old(Buffers())) && rounds <= 2
    {
      hide Ring, Placed;
      var cbuf := if w == Main then writebuf else extrabuf;
      rounds := CopyIn(cbuf, data);
      if w == Main { main := main.(buf := main.buf + data); } else { ext := ext.(buf := ext.buf + data); }
    }

    /** Data that fits: written at once as far as the descriptor takes it, the rest stored. */
    method TakeData(w: Which, data: seq<U8>, io: WriteIO) returns (did: WriteIO, why: Option<Reason>, rounds: nat)
      requires Valid() && HasStream(RecvPart(), w) && |data| <= Avail(cfg, StreamOf(RecvPart(), w))
      requires |data| <= RecvPart().window
      modifies this`recvwindow, this`recvdonelen, this`main, this`ext, this`fds, this`sent, Buffers()
      ensures Did(did, io) && rounds <= 2
      ensures Ends(Taking(cfg, old(Abs()), w, data, did), why)
      ensures fresh(Buffers() - old(Buffers()))
    {
      hide Valid, RecvPart, WriteOut, AdjustWindow, Accept, Store;
      AcceptBytes(w, data);
      var consumed, success, ok;
      consumed, success, did, ok := WriteChannel(w, Some(data), io);
      WriteShrinks(cfg, old(Abs()), w, data, did);
      rounds := 0;
      if !ok { return did, Some(AvailAssertion), 0; }
      if success { rounds := StoreBytes(w, data[consumed..]); }
      why := None;
    }

    method CommonRecvMsgChannelData(w: Which, data: seq<U8>, io: WriteIO)
      returns (did: WriteIO, why: Option<Reason>, rounds: nat)
      requires Valid()
      modifies this`recvwindow, this`recvdonelen, this`main, this`ext, this`fds, this`sent, Buffers()
      ensures Did(did, io) && rounds <= 2
      ensures Ends(RecvData(cfg, old(Abs()), w, data, did), why)
      ensures fresh(Buffers() - old(Buffers()))
    {
      hide Ring, Placed, Taking;
      did, rounds := io, 0;
      if flags.recvEof { return did, Some(DataAfterEof), 0; }
      var fd := if w == Main then fds.write else fds.err;
      if fd < 0 || (w == Extra && extrabuf == null) { return did, None, 0; }
      var cbuf := if w == Main then writebuf else extrabuf;
      if |data| > cbuf.Avail() { return did, Some(OversizedPacket), 0; }
      if |data| > recvwindow { return did, Some(WindowAssertion), 0; }
      did, why, rounds := TakeData(w, data, io);
    }

    // -- Data from the local side --

    /** send_msg_channel_data, reading standard output or standard error. */
    method SendMsgChannelData(w: Which, io: ReadIO) returns (why: Option<Reason>)
      requires Valid()
      modifies this`trans, this`fds, this`input, this`sent
      ensures Ends(SendData(cfg, old(Abs()), w, io), why)
    {
      hide Ring, Placed, CloseFd, RecvPart;
      why := None;
      if flags.sentClose { return Some(SendAssertion); }
      var fd := if w == Main then fds.read else fds.err;
      if fd < 0 { return Some(SendAssertion); }
      var maxlen := Min(Min(trans.window, trans.maxpacket), if w == Main then cfg.maxData else cfg.maxExtData);
      if maxlen == 0 { return; }
      match io
      case Interrupted => return;
      case EndOfFile => CloseChanFd(fd, ShutRd);
      case Got(bytes) =>
        var len := Min(|bytes|, maxlen);
        if len == 0 { return; }
        input := Fed(input, w, bytes[..len]);
        sent := sent + [if w == Main then Data(bytes[..len]) else ExtData(bytes[..len])];
        trans := trans.(window := trans.window - len);
        if flags.flushing && len < maxlen { CloseChanFd(fd, ShutRd); }
    }

    // -- Closing down --

    method IsWritePending() returns (b: bool)
      requires Valid()
      ensures b == WritePending(Abs())
    {
      hide Ring, Placed;
      b := (fds.write >= 0 && writebuf.used > 0) || (fds.err >= 0 && extrabuf != null && extrabuf.used > 0);
    }

    /** The reads that check_close makes on a channel that is being flushed. */
    method FlushReads(io1: ReadIO, io2: ReadIO) returns (why: Option<Reason>)
      requires Valid()
      modifies this`trans, this`fds, this`input, this`sent
      ensures Ends(Flush(cfg, old(Abs()), io1, io2), why)
    {
      hide Ring, Placed, SendData, Holds;
      why := None;
      if flags.flushing {
        if fds.read >= 0 && trans.window > 0 {
          why := SendMsgChannelData(Main, io1);
          if why.Some? { return; }
        }
        if extrabuf == null && fds.err >= 0 && trans.window > 0 {
          why := SendMsgChannelData(Extra, io2);
        }
      }
    }

    /** The last part of check_close: EOF when there is no more to send, CLOSE when no more can come either. */
    method FinishClosing(allowed: bool)
      requires Valid()
      modifies this`fds, this`sent, this`flags
      ensures Valid() && Abs() == Finish(cfg, old(Abs()), allowed)
    {
      hide Ring, Placed, SendClose, SendEof, WritePending;
      if !flags.sentEof && fds.read == FD_CLOSED && (extrabuf != null || fds.err == FD_CLOSED) {
        SendMsgChannelEof();
      }
      var pending := IsWritePending();
      if fds.read == FD_CLOSED && fds.write == FD_CLOSED && (extrabuf != null || fds.err == FD_CLOSED)
         && !flags.sentClose && allowed && !pending {
        SendMsgChannelClose();
      }
    }

    method ClosingDown(allowed: bool, pending: bool, io1: ReadIO, io2: ReadIO) returns (why: Option<Reason>)
      requires Valid() && pending == WritePending(Abs())
      modifies this`trans, this`fds, this`input, this`sent, this`flags
      ensures Ends(CloseDown(cfg, old(Abs()), allowed, io1, io2), why)
    {
      hide RecvPart, Valid, Flush, Finish, CloseFd, WritePending;
      if (flags.recvEof && !pending) || (cfg.hasCheckClose && allowed) {
        CloseChanFd(fds.write, ShutWr);
      }
      why := FlushReads(io1, io2);
      if why.Some? { return; }
      FinishClosing(allowed);
    }

    method RemoveChannel()
      requires Valid()
      modifies this`fds, this`live
      ensures Valid() && Abs() == Removed(old(Abs()))
    {
      hide RecvPart;
      fds, live := ALL_CLOSED, false;
    }

    /** check_close; exited is the answer of the type's own check. */
    method CheckClose(exited: bool, io1: ReadIO, io2: ReadIO) returns (why: Option<Reason>)
      requires Valid()
      modifies this`trans, this`fds, this`input, this`sent, this`flags, this`live
      ensures Ends(ChannelModel.CheckClose(cfg, old(Abs()), exited, io1, io2), why)
    {
      hide RecvPart, Valid, CloseDown, SendClose, WritePending, Removed;
      if !flags.flushing && !flags.sentClose && cfg.hasCheckClose && exited {
        flags := flags.(flushing := true);
      }
      var allowed := !cfg.hasCheckClose || flags.sentClose || exited;
      var pending := IsWritePending();
      if flags.recvClose && !pending && allowed {
        if !flags.sentClose { SendMsgChannelClose(); }
        RemoveChannel();
        return None;
      }
      why := ClosingDown(allowed, pending, io1, io2);
    }

    // -- The main loop and the messages --

    method ReadsOf(t: Turn) returns (any: bool, why: Option<Reason>)
      requires Valid()
      modifies this`trans, this`fds, this`input, this`sent
      ensures Ends(Reads(cfg, old(Abs()), t).0, why) && (why.None? ==> any == Reads(cfg, old(Abs()), t).1)
    {
      hide Valid, Buffers, SendData;
      any, why := false, None;
      if fds.read >= 0 && t.read {
        why := SendMsgChannelData(Main, t.in1);
        any := true;
        if why.Some? { return; }
      }
      if extrabuf == null && fds.err >= 0 && t.readErr {
        why := SendMsgChannelData(Extra, t.in2);
        any := true;
      }
    }

    /** The writes of a turn; did is the turn with what each write did. */
    method WritesOf(t: Turn) returns (did: Turn, any: bool, why: Option<Reason>)
      requires Valid()
      modifies this`recvwindow, this`recvdonelen, this`main, this`ext, this`fds, this`sent, writebuf, extrabuf
      ensures Buffers() == old(Buffers()) && Same(did, t)
      ensures Ends(Writes(cfg, old(Abs()), did).0, why) && (why.None? ==> any == Writes(cfg, old(Abs()), did).1)
    {
      hide Valid, Buffers, WriteOut, AdjustWindow, WindowAsserts;
      did, any, why := t, false, None;
      var consumed, success, done, ok;
      if fds.write >= 0 && t.write {
        consumed, success, done, ok := WriteChannel(Main, None, t.out1);
        did := did.(out1 := done);
        any := true;
        if !ok { return did, any, Some(AvailAssertion); }
      }
      if extrabuf != null && fds.err >= 0 && t.writeErr {
        consumed, success, done, ok := WriteChannel(Extra, None, t.out2);
        did := did.(out2 := done);
        any := true;
        if !ok { return did, any, Some(AvailAssertion); }
      }
    }

    /** The body of channelio for one channel. */
    method ChannelIO(t: Turn) returns (did: Turn, why: Option<Reason>)
      requires Valid()
      modifies this, writebuf, extrabuf
      ensures Buffers() == old(Buffers()) && Same(did, t)
      ensures Ends(ChannelModel.ChannelIO(cfg, old(Abs()), did), why)
    {
      hide Valid, Buffers, RecvPart, Reads, Writes, ChannelModel.CheckClose;
      did := t;
      var read, wrote;
      read, why := ReadsOf(t);
      if why.Some? { return; }
      did, wrote, why := WritesOf(t);
      SameReads(cfg, old(Abs()), did, t);
      if why.Some? { return; }
      if read || wrote || t.signal { why := CheckClose(t.exited, t.flush1, t.flush2); }
    }

    /** recv_msg_channel_data, or the extended data of standard error. */
    method RecvMsgChannelData(w: Which, bytes: seq<U8>, t: Turn) returns (did: Turn, why: Option<Reason>)
      requires Valid() && live
      modifies this, Buffers()
      ensures fresh(Buffers() - old(Buffers())) && Same(did, t)
      ensures Ends(Receive(cfg, old(Abs()), if w == Main then Data(bytes) else ExtData(bytes), did), why)
    {
      hide Valid, RecvPart, RecvData;
      did, why := t, None;
      got := got + 1;
      if w == Extra && !cfg.acceptsExt { return; }
      var done, rounds;
      done, why, rounds := CommonRecvMsgChannelData(w, bytes, if w == Main then t.out1 else t.out2);
      did := if w == Main then t.(out1 := done) else t.(out2 := done);
    }

    method RecvMsgChannelWindowAdjust(n: nat, ghost t: Turn)
      requires Valid() && live
      modifies this`trans, this`got
      ensures Ends(Receive(cfg, old(Abs()), Adjust(n), t), None)
    {
      hide Valid, RecvPart;
      got := got + 1;
      var incr := Min(n, TRANS_MAX_WIN_INCR);
      var wide := (trans.window + incr) % 0x1_0000_0000;
      trans := trans.(window := Min(wide, TRANS_MAX_WINDOW));
    }

    method RecvMsgChannelOpenConfirmation(window: nat, maxpacket: nat, ghost t: Turn) returns (why: Option<Reason>)
      requires Valid() && live
      modifies this`trans, this`flags, this`got
      ensures Ends(Receive(cfg, old(Abs()), Confirm(window, maxpacket), t), why)
    {
      hide Valid, RecvPart;
      got := got + 1;
      if !flags.awaitOpen { return Some(UnexpectedReply); }
      flags := flags.(awaitOpen := false);
      trans := Trans(window, maxpacket);
      why := None;
    }

    method RecvMsgChannelEof(t: Turn) returns (why: Option<Reason>)
      requires Valid() && live
      modifies this`trans, this`fds, this`input, this`sent, this`flags, this`live, this`got
      ensures Ends(Receive(cfg, old(Abs()), Eof, t), why)
    {
      hide Valid, RecvPart, ChannelModel.CheckClose;
      got := got + 1;
      flags := flags.(recvEof := true);
      why := CheckClose(t.exited, t.flush1, t.flush2);
    }

    method RecvMsgChannelClose(t: Turn) returns (why: Option<Reason>)
      requires Valid() && live
      modifies this`trans, this`fds, this`input, this`sent, this`flags, this`live, this`got
      ensures Ends(Receive(cfg, old(Abs()), Close, t), why)
    {
      hide Valid, RecvPart, ChannelModel.CheckClose;
      got := got + 1;
      flags := flags.(recvEof := true, recvClose := true);
      why := CheckClose(t.exited, t.flush1, t.flush2);
    }

    /** The outcome of a handler as the program sees it: it goes on in the new state or it stops. */
    ghost predicate Ends(r: Outcome, why: Option<Reason>)
      reads this, writebuf, writebuf.data, extrabuf, if extrabuf == null then null else extrabuf.data
    {
      match r case Stopped(reason) => why == Some(reason) case Running(c) => why == None && Valid() && Abs() == c
    }
  }

  /** Writing leaves no more in the buffer than there was and consumes no more than there is. */
  lemma WriteShrinks(cfg: Config, c: Chan, w: Which, data: seq<U8>, io: WriteIO)
    requires HasStream(c.recv, w) && |data| <= c.recv.window
    ensures var (d, consumed, success) := WriteOut(cfg, Accept(c, w, data), w, data, io);
            consumed <= |data| && |StreamOf(AdjustWindow(cfg, d).recv, w).buf| <= |StreamOf(c.recv, w).buf|
  {
  }

  /** Without writev the new data is not offered to the descriptor. */
  lemma FallbackIgnores(cfg: Config, c: Chan, w: Which, more: seq<U8>, io: WriteIO)
    requires HasStream(c.recv, w) && !cfg.writev
    ensures WriteOut(cfg, c, w, more, io) == WriteOut(cfg, c, w, [], io)
  {
    if io.Took? {
      var none: seq<U8> := [];
      assert more[..0] == none[..0];
    }
  }

  function Given(more: Option<seq<U8>>): seq<U8> { if more.Some? then more.value else [] }

  /** What a system call did with what it was willing to do: as much, or fewer bytes. */
  predicate Did(did: WriteIO, io: WriteIO) { did == io || (did.Took? && io.Took? && did.n <= io.n) }

  predicate Same(did: Turn, t: Turn) {
    did == t.(out1 := did.out1, out2 := did.out2) && Did(did.out1, t.out1) && Did(did.out2, t.out2)
  }

  lemma SameReads(cfg: Config, c: Chan, did: Turn, t: Turn)
    requires Same(did, t)
    ensures Reads(cfg, c, did) == Reads(cfg, c, t)
  {
  }

  /** A gathering write is not even tried when there is nothing to write. */
  function Attempt(cfg: Config, c: Chan, w: Which, more: Option<seq<U8>>, io: WriteIO): (Chan, nat, bool)
    requires HasStream(c.recv, w)
  {
    if cfg.writev && StreamOf(c.recv, w).buf == [] && more.None? then (c, 0, true)
        else WriteOut(cfg, c, w, Given(more), io)
  }

  /** What a write takes goes out in order: the buffer first, then the new data. */
  lemma TakenWrites(s: Stream, more: seq<U8>, n: nat, offered: seq<U8>)
    requires n <= |offered| && offered <= s.buf + more
    ensures Taken(s, more, n) == s.(buf := s.buf[Min(n, |s.buf|)..], written := s.written + offered[..n])
  {
    var k := Min(n, |s.buf|);
    assert offered[..n] == (s.buf + more)[..n] == s.buf[..k] + more[..n - k];
    assert s.written + (s.buf[..k] + more[..n - k]) == s.written + s.buf[..k] + more[..n - k];
  }
}
