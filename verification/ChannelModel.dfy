/** One end of an SSH channel as a value: its windows, descriptors and close flags, the bytes waiting for
    each local descriptor, and what it has sent, accepted and written so far. */
module ChannelModel {
  import opened Bits
  import opened Common

  const TRANS_MAX_WINDOW: nat := 500_000_000
  const TRANS_MAX_WIN_INCR: nat := 500_000_000
  const MAX_RECV_WINDOW: nat := 1_048_576
  const FD_CLOSED: int := -1
  const FD_UNINIT: int := -2


  /** The messages of one channel. Open and Confirm carry the window their sender grants. */
  datatype Msg = Open(window: nat, maxpacket: nat) | Confirm(window: nat, maxpacket: nat) | Data(bytes: seq<U8>)
      | ExtData(bytes: seq<U8>)
               | Adjust(n: nat) | Eof | Close

  /** What is fixed for one end: the receive window, whether writev exists, and the traits of the channel type. */
  datatype Config = Config(window: nat, writev: bool, sepfds: bool, hasCheckClose: bool, acceptsExt: bool,
                           maxData: nat, maxExtData: nat)

  /** A stream from the wire to a local descriptor: the bytes buffered, all bytes accepted, all bytes
      written, and whether a write has failed. */
  datatype Stream = Stream(buf: seq<U8>, accepted: seq<U8>, written: seq<U8>, failed: bool)

  /** The receiving side: window left, bytes written but not yet granted again, and the two streams. */
  datatype Recv = Recv(window: nat, donelen: nat, main: Stream, ext: Option<Stream>)
  /** The sending side: window left and largest packet. */
  datatype Trans = Trans(window: nat, maxpacket: nat)
  datatype Fds = Fds(read: int, write: int, err: int)
  datatype Flags = Flags(sentEof: bool, sentClose: bool, recvEof: bool, recvClose: bool, flushing: bool,
      awaitOpen: bool)

  /** All bytes read from the local descriptors, standard output and standard error. */
  datatype Input = Input(main: seq<U8>, extra: seq<U8>)

  /** A channel, what it has read, the messages it has sent, how many of the other end's it has taken, and
      whether it is still in the table. */
  datatype Chan = Chan(recv: Recv, trans: Trans, fds: Fds, flags: Flags, input: Input, sent: seq<Msg>, got: nat,
      live: bool)

  /** Why the program stops: an error exit or a failed assertion. */
  datatype Reason = DataAfterEof | OversizedPacket | WindowAssertion | AvailAssertion | SendAssertion
                  | UnexpectedReply | UnknownChannel

  datatype Outcome = Running(chan: Chan) | Stopped(why: Reason) {
    predicate IsFailure() { Stopped? }
    function PropagateFailure(): Outcome requires Stopped? { this }
    function Extract(): Chan requires Running? { chan }
  }

  /** Results of a write to a descriptor: would block, failed, or so many bytes taken. */
  datatype WriteIO = WouldBlock | WriteError | Took(n: nat)
  /** Results of a read, after the read mangler: interrupted, end of file or error, or some bytes. */
  datatype ReadIO = Interrupted | EndOfFile | Got(bytes: seq<U8>)
  datatype How = ShutRd | ShutWr | ShutRdWr
  datatype Which = Main | Extra

  predicate ErrfdIsRead(c: Chan) { c.recv.ext.None? }

  /** RECV_WINDOWEXTEND. */
  function Extend(cfg: Config): nat { cfg.window / 3 }

  function FdOf(f: Fds, w: Which): int { if w == Main then f.write else f.err }

  predicate HasStream(r: Recv, w: Which) { w == Main || r.ext.Some? }

  function StreamOf(r: Recv, w: Which): Stream
    requires HasStream(r, w)
  {
    if w == Main then r.main else r.ext.value
  }

  function WithStream(r: Recv, w: Which, s: Stream): Recv {
    if w == Main then r.(main := s) else r.(ext := Some(s))
  }

  /** close_chan_fd. */
  function CloseFd(cfg: Config, f: Fds, errIsRead: bool, fd: int, how: How): Fds {
    var closeout := !cfg.sepfds || how == ShutRd;
    var closein := !cfg.sepfds || how != ShutRd;
    Fds(if closeout && fd == f.read then FD_CLOSED else f.read,
        if closein && fd == f.write then FD_CLOSED else f.write,
        if (if errIsRead then closeout else closein) && fd == f.err then FD_CLOSED else f.err)
  }

  /** The three calls of close_chan_fd that go with CLOSE. */
  function CloseAll(cfg: Config, f: Fds, errIsRead: bool): Fds {
    var f1 := CloseFd(cfg, f, errIsRead, f.read, ShutRd);
    var f2 := CloseFd(cfg, f1, errIsRead, f1.err, ShutRdWr);
    CloseFd(cfg, f2, errIsRead, f2.write, ShutWr)
  }

  function Closing(cfg: Config, c: Chan, fd: int, how: How): Chan {
    c.(fds := CloseFd(cfg, c.fds, ErrfdIsRead(c), fd, how))
  }

  /** send_msg_channel_close. */
  function SendClose(cfg: Config, c: Chan): Chan {
    c.(sent := c.sent + [Close], flags := c.flags.(sentEof := true, sentClose := true),
       fds := CloseAll(cfg, c.fds, ErrfdIsRead(c)))
  }

  /** send_msg_channel_eof. */
  function SendEof(c: Chan): Chan { c.(sent := c.sent + [Eof], flags := c.flags.(sentEof := true)) }

  /** How much a single write may take: writev offers the buffer and the new data, write the buffer only. */
  function Offered(cfg: Config, s: Stream, more: seq<U8>): nat {
    if cfg.writev then |s.buf| + |more| else |s.buf|
  }

  /** A write that took n bytes, first from the buffer and then from the new data. */
  function Taken(s: Stream, more: seq<U8>, n: nat): Stream
    requires n <= |s.buf| + |more|
  {
    var k := Min(n, |s.buf|);
    s.(buf := s.buf[k..], written := s.written + s.buf[..k] + more[..n - k])
  }

  /** writechannel_writev and writechannel_fallback: new state, bytes of the new data consumed, success. */
  function WriteOut(cfg: Config, c: Chan, w: Which, more: seq<U8>, io: WriteIO): (Chan, nat, bool)
    requires HasStream(c.recv, w)
  {
    var s := StreamOf(c.recv, w);
    match io
    case WouldBlock => (c, 0, true)
    case WriteError =>
      (Closing(cfg, c.(recv := WithStream(c.recv, w, s.(failed := true))), FdOf(c.fds, w), ShutWr), 0, false)
    case Took(n0) =>
      var n := Min(n0, Offered(cfg, s, more));
      (c.(recv := WithStream(c.recv, w, Taken(s, more, n)).(donelen := c.recv.donelen + n)), n - Min(n, |s.buf|), true)
  }

  /** The window adjustment that ends writechannel. */
  function AdjustWindow(cfg: Config, c: Chan): Chan {
    if c.recv.donelen >= Extend(cfg)
    then c.(sent := c.sent + [Adjust(c.recv.donelen)],
            recv := c.recv.(window := c.recv.window + c.recv.donelen, donelen := 0))
    else c
  }

  /** cbuf_getavail of the buffer of a stream. */
  function Avail(cfg: Config, s: Stream): int { cfg.window - |s.buf| }

  predicate WindowAsserts(cfg: Config, r: Recv) {
    r.window <= cfg.window && r.window <= Avail(cfg, r.main) && (r.ext.None? || r.window <= Avail(cfg, r.ext.value))
  }

  /** writechannel without new data; writev is not called when there is nothing to write. */
  function WriteChannel(cfg: Config, c: Chan, w: Which, io: WriteIO): Outcome
    requires HasStream(c.recv, w)
  {
    var out := if cfg.writev && StreamOf(c.recv, w).buf == [] then c else WriteOut(cfg, c, w, [], io).0;
    var c1 := AdjustWindow(cfg, out);
    if WindowAsserts(cfg, c1.recv) then Running(c1) else Stopped(AvailAssertion)
  }

  /** Data taken off the wire: accepted, and its length off the window. */
  function Accept(c: Chan, w: Which, data: seq<U8>): Chan
    requires HasStream(c.recv, w) && |data| <= c.recv.window
  {
    var s := StreamOf(c.recv, w);
    c.(recv := WithStream(c.recv, w, s.(accepted := s.accepted + data)).(window := c.recv.window - |data|))
  }

  function Store(c: Chan, w: Which, data: seq<U8>): Chan
    requires HasStream(c.recv, w)
  {
    var s := StreamOf(c.recv, w);
    c.(recv := WithStream(c.recv, w, s.(buf := s.buf + data)))
  }

  /** Data that fits: written through, with the rest stored unless the write failed. */
  function Taking(cfg: Config, c: Chan, w: Which, data: seq<U8>, io: WriteIO): Outcome
    requires HasStream(c.recv, w) && |data| <= c.recv.window
  {
    var (c2, consumed, success) := WriteOut(cfg, Accept(c, w, data), w, data, io);
    var c3 := AdjustWindow(cfg, c2);
    if !WindowAsserts(cfg, c3.recv) then Stopped(AvailAssertion)
    else Running(if success then Store(c3, w, data[consumed..]) else c3)
  }

  /** common_recv_msg_channel_data: what is not written at once goes into the buffer. */
  function RecvData(cfg: Config, c: Chan, w: Which, data: seq<U8>, io: WriteIO): Outcome {
    if c.flags.recvEof then Stopped(DataAfterEof)
    else if FdOf(c.fds, w) < 0 || !HasStream(c.recv, w) then Running(c)
    else if |data| > Avail(cfg, StreamOf(c.recv, w)) then Stopped(OversizedPacket)
    else if |data| > c.recv.window then Stopped(WindowAssertion)
    else Taking(cfg, c, w, data, io)
  }

  /** The largest payload send_msg_channel_data may read. */
  function MaxRead(cfg: Config, c: Chan, w: Which): nat {
    Min(Min(c.trans.window, c.trans.maxpacket), if w == Main then cfg.maxData else cfg.maxExtData)
  }

  function SendBytes(c: Chan, w: Which, bytes: seq<U8>): Chan
    requires |bytes| <= c.trans.window
  {
    c.(sent := c.sent + [if w == Main then Data(bytes) else ExtData(bytes)],
       trans := c.trans.(window := c.trans.window - |bytes|))
  }

  function Fed(i: Input, w: Which, bytes: seq<U8>): Input {
    if w == Main then i.(main := i.main + bytes) else i.(extra := i.extra + bytes)
  }

  function InputOf(i: Input, w: Which): seq<U8> { if w == Main then i.main else i.extra }

  /** send_msg_channel_data. */
  function SendData(cfg: Config, c: Chan, w: Which, io: ReadIO): Outcome {
    var fd := if w == Main then c.fds.read else c.fds.err;
    var maxlen := MaxRead(cfg, c, w);
    if c.flags.sentClose || fd < 0 then Stopped(SendAssertion)
    else if maxlen == 0 then Running(c)
    else match io
      case Interrupted => Running(c)
      case EndOfFile => Running(Closing(cfg, c, fd, ShutRd))
      case Got(bytes0) =>
        var bytes := bytes0[..Min(|bytes0|, maxlen)];
        if bytes == [] then Running(c)
        else
          var c1 := SendBytes(c.(input := Fed(c.input, w, bytes)), w, bytes);
          Running(if c.flags.flushing && |bytes| < maxlen then Closing(cfg, c1, fd, ShutRd) else c1)
  }

  /** write_pending. */
  predicate WritePending(c: Chan) {
    (c.fds.write >= 0 && |c.recv.main.buf| > 0) ||
    (c.fds.err >= 0 && c.recv.ext.Some? && |c.recv.ext.value.buf| > 0)
  }

  predicate AllReadClosed(c: Chan) {
    c.fds.read == FD_CLOSED && (!ErrfdIsRead(c) || c.fds.err == FD_CLOSED)
  }

  /** The reads that check_close makes while a channel is flushed. */
  function Flush(cfg: Config, c: Chan, io1: ReadIO, io2: ReadIO): Outcome {
    if !c.flags.flushing then Running(c)
    else
      var c1 :- if c.fds.read >= 0 && c.trans.window > 0 then SendData(cfg, c, Main, io1) else Running(c);
      if ErrfdIsRead(c1) && c1.fds.err >= 0 && c1.trans.window > 0 then SendData(cfg, c1, Extra, io2) else Running(c1)
  }

  /** The end of check_close: EOF when nothing more will be sent, CLOSE when nothing more can come either. */
  function Finish(cfg: Config, c: Chan, allowed: bool): Chan {
    var c1 := if !c.flags.sentEof && AllReadClosed(c) then SendEof(c) else c;
    if AllReadClosed(c1) && c1.fds.write == FD_CLOSED && !c1.flags.sentClose && allowed && !WritePending(c1)
    then SendClose(cfg, c1) else c1
  }

  /** check_close on a channel that stays: end of output, flushing, EOF and CLOSE. */
  function CloseDown(cfg: Config, c: Chan, allowed: bool, io1: ReadIO, io2: ReadIO): Outcome {
    var c1 := if (c.flags.recvEof && !WritePending(c)) || (cfg.hasCheckClose && allowed)
              then Closing(cfg, c, c.fds.write, ShutWr) else c;
    var c2 :- Flush(cfg, c1, io1, io2);
    Running(Finish(cfg, c2, allowed))
  }

  const ALL_CLOSED: Fds := Fds(FD_CLOSED, FD_CLOSED, FD_CLOSED)

  /** remove_channel. */
  function Removed(c: Chan): Chan { c.(fds := ALL_CLOSED, live := false) }

  /** check_close; exited is the answer of the type's own check. */
  function CheckClose(cfg: Config, c: Chan, exited: bool, io1: ReadIO, io2: ReadIO): Outcome {
    var c1 := if !c.flags.flushing && !c.flags.sentClose && cfg.hasCheckClose && exited
              then c.(flags := c.flags.(flushing := true)) else c;
    var allowed := !cfg.hasCheckClose || c1.flags.sentClose || exited;
    if c1.flags.recvClose && !WritePending(c1) && allowed then
      Running(Removed(if c1.flags.sentClose then c1 else SendClose(cfg, c1)))
    else CloseDown(cfg, c1, allowed, io1, io2)
  }

  /** One turn of channelio on a channel: which descriptors are ready and what the calls return. */
  datatype Turn = Turn(read: bool, readErr: bool, write: bool, writeErr: bool, signal: bool,
                       in1: ReadIO, in2: ReadIO, out1: WriteIO, out2: WriteIO,
                       exited: bool, flush1: ReadIO, flush2: ReadIO)

  /** The reads of a turn, and whether there were any. */
  function Reads(cfg: Config, c: Chan, t: Turn): (Outcome, bool) {
    var r1 := c.fds.read >= 0 && t.read;
    match if r1 then SendData(cfg, c, Main, t.in1) else Running(c)
    case Stopped(why) => (Stopped(why), true)
    case Running(c1) =>
      var r2 := ErrfdIsRead(c1) && c1.fds.err >= 0 && t.readErr;
      (if r2 then SendData(cfg, c1, Extra, t.in2) else Running(c1), r1 || r2)
  }

  /** The writes of a turn, and whether there were any. */
  function Writes(cfg: Config, c: Chan, t: Turn): (Outcome, bool) {
    var w1 := c.fds.write >= 0 && t.write;
    match if w1 then WriteChannel(cfg, c, Main, t.out1) else Running(c)
    case Stopped(why) => (Stopped(why), true)
    case Running(c1) =>
      var w2 := !ErrfdIsRead(c1) && c1.fds.err >= 0 && t.writeErr;
      (if w2 then WriteChannel(cfg, c1, Extra, t.out2) else Running(c1), w1 || w2)
  }

  function ChannelIO(cfg: Config, c: Chan, t: Turn): Outcome {
    var (ins, read) := Reads(cfg, c, t);
    var c1 :- ins;
    var (outs, wrote) := Writes(cfg, c1, t);
    var c2 :- outs;
    if read || wrote || t.signal then CheckClose(cfg, c2, t.exited, t.flush1, t.flush2) else Running(c2)
  }

  /** recv_msg_channel_window_adjust, in 32-bit arithmetic. */
  function Widened(window: nat, n: nat): nat {
    Min((window + Min(n, TRANS_MAX_WIN_INCR)) % 0x1_0000_0000, TRANS_MAX_WINDOW)
  }

  /** The handlers for messages from the other end. */
  function Receive(cfg: Config, c0: Chan, m: Msg, t: Turn): Outcome {
    if !c0.live then Stopped(UnknownChannel)
    else
      var c := c0.(got := c0.got + 1);
      match m
      case Open(_, _) => Stopped(UnexpectedReply)
      case Confirm(n, maxpacket) =>
        if c.flags.awaitOpen then Running(c.(flags := c.flags.(awaitOpen := false), trans := Trans(n, maxpacket)))
        else Stopped(UnexpectedReply)
      case Data(bytes) => RecvData(cfg, c, Main, bytes, t.out1)
      case ExtData(bytes) => if cfg.acceptsExt then RecvData(cfg, c, Extra, bytes, t.out2) else Running(c)
      case Adjust(n) => Running(c.(trans := c.trans.(window := Widened(c.trans.window, n))))
      case Eof =>
        CheckClose(cfg, c.(flags := c.flags.(recvEof := true)), t.exited, t.flush1, t.flush2)
      case Close =>
        CheckClose(cfg, c.(flags := c.flags.(recvEof := true, recvClose := true)), t.exited, t.flush1, t.flush2)
  }

  const EMPTY: Stream := Stream([], [], [], false)

  /** newchannel: the window is granted by the message that opens or confirms the channel. */
  function NewChannel(cfg: Config, first: Msg, trans: Trans, await: bool, got: nat): Chan {
    Chan(Recv(cfg.window, 0, EMPTY, None), trans, Fds(FD_UNINIT, FD_UNINIT, FD_CLOSED),
         Flags(false, false, false, false, false, await), Input([], []), [first], got, true)
  }

  /** The type's handlers set up the descriptors, once, with a buffer for standard error if that is to be written. */
  predicate CanStart(c: Chan, fds: Fds) {
    && c.live && c.fds == Fds(FD_UNINIT, FD_UNINIT, FD_CLOSED) && c.recv.ext.None?
    && fds.read >= FD_CLOSED && fds.write >= FD_CLOSED && fds.err >= FD_CLOSED
  }

  function Start(c: Chan, fds: Fds, extra: bool): Chan {
    c.(fds := fds, recv := c.recv.(ext := if extra then Some(EMPTY) else None))
  }
}
