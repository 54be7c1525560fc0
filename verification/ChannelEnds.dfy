/** When descriptors close and how large packets are, in every run of two ends. */
module ChannelEnds {
  import opened Bits
  import opened ChannelModel
  import opened Common
  import opened ChannelInvariant
  import opened ChannelRuns

  // -- One end --

  /** No output is the descriptor of an input as well, unless the two directions are shut down apart. */
  predicate Apart(cfg: Config, c: Chan) {
    cfg.sepfds
    || (&& (c.fds.write >= 0 ==> c.fds.read != c.fds.write && (ErrfdIsRead(c) ==> c.fds.err != c.fds.write))
        && (!ErrfdIsRead(c) && c.fds.err >= 0 ==> c.fds.err != c.fds.read))
  }

  /** A write has failed, or the type's own check has found its process gone. */
  predicate Excused(c: Chan) { Failed(c.recv) || c.flags.flushing }

  /** The output is open, or EOF has come and nothing waits to be written. */
  predicate Fine(c: Chan, w: Which) {
    HasStream(c.recv, w) && (FdOf(c.fds, w) >= 0 || (c.flags.recvEof && StreamOf(c.recv, w).buf == []))
  }

  /** No packet of data is larger than the other side takes and the buffer holds; none goes out unconfirmed. */
  predicate PacketsFit(cfg: Config, c: Chan) {
    forall i :: 0 <= i < |c.sent| && IsData(c.sent[i]) ==>
        && !c.flags.awaitOpen
        && |c.sent[i].bytes| <= c.trans.maxpacket
        && |c.sent[i].bytes| <= if c.sent[i].Data? then cfg.maxData else cfg.maxExtData
  }

  /** What is watched: standard output, standard error with it, and the input; whether there was an excuse before; and
      the largest packet the other side takes. */
  datatype Watch = Watch(output: bool, both: bool, input: bool, excused: bool, max: nat)

  predicate OutputTended(c: Chan, v: Watch) {
    && c.fds.write != FD_UNINIT
    && (Excused(c) || (!v.excused && Fine(c, Main) && (v.both ==> Fine(c, Extra))))
  }

  predicate InputTended(c: Chan) {
    c.fds.read != FD_UNINIT && !c.flags.flushing && (c.fds.read >= 0 || Failed(c.recv) || c.flags.recvClose)
  }

  predicate Tended(cfg: Config, c: Chan, v: Watch) {
    && PacketsFit(cfg, c) && c.trans.maxpacket == (if c.flags.awaitOpen then 0 else v.max)
    && (c.flags.flushing ==> cfg.hasCheckClose)
    && (v.output || v.input ==> Apart(cfg, c)) && (v.output ==> OutputTended(c, v)) && (v.input ==> InputTended(c))
  }

  lemma EndReadTended(cfg: Config, c: Chan, v: Watch, fd: int)
    requires Tended(cfg, c, v) && fd >= 0 && (fd == c.fds.read || (ErrfdIsRead(c) && fd == c.fds.err)) && !v.input
    ensures Tended(cfg, Closing(cfg, c, fd, ShutRd), v)
  {
  }

  lemma SendBytesTended(cfg: Config, c: Chan, v: Watch, w: Which, bytes: seq<U8>)
    requires Tended(cfg, c, v) && 0 < |bytes| <= MaxRead(cfg, c, w)
    ensures Tended(cfg, SendBytes(c.(input := Fed(c.input, w, bytes)), w, bytes), v)
  {
  }

  lemma SendDataTended(cfg: Config, c: Chan, v: Watch, w: Which, io: ReadIO)
    requires Tended(cfg, c, v) && SendData(cfg, c, w, io).Running? && (w == Extra ==> ErrfdIsRead(c))
    requires v.input ==> !io.EndOfFile?
    ensures Tended(cfg, SendData(cfg, c, w, io).chan, v)
  {
    hide Closing, SendBytes, Tended;
    var fd, maxlen := if w == Main then c.fds.read else c.fds.err, MaxRead(cfg, c, w);
    match io
    case Interrupted =>
    case EndOfFile => EndReadTended(cfg, c, v, fd);
    case Got(bytes0) =>
      var bytes := bytes0[..Min(|bytes0|, maxlen)];
      if bytes != [] {
        SendBytesTended(cfg, c, v, w, bytes);
        var d := SendBytes(c.(input := Fed(c.input, w, bytes)), w, bytes);
        SentBytes(c, w, bytes);
        if c.flags.flushing {
          NotFlushing(cfg, c, v);
          EndReadTended(cfg, d, v, fd);
        }
      }
  }

  lemma SentBytes(c: Chan, w: Which, bytes: seq<U8>)
    requires |bytes| <= c.trans.window
    ensures var d := SendBytes(c.(input := Fed(c.input, w, bytes)), w, bytes);
            d.fds == c.fds && ErrfdIsRead(d) == ErrfdIsRead(c)
  {
  }

  lemma NotFlushing(cfg: Config, c: Chan, v: Watch)
    requires Tended(cfg, c, v) && c.flags.flushing
    ensures !v.input
  {
  }

  // -- Writing --

  lemma WriteOutTended(cfg: Config, c: Chan, v: Watch, w: Which, more: seq<U8>, io: WriteIO)
    requires Tended(cfg, c, v) && HasStream(c.recv, w) && FdOf(c.fds, w) >= 0
    ensures var (d, consumed, success) := WriteOut(cfg, c, w, more, io);
            && Tended(cfg, d, v) && HasStream(d.recv, w) && (success ==> FdOf(d.fds, w) >= 0)
            && consumed <= |more|
  {
    hide PacketsFit;
    SamePackets(cfg, c, WriteOut(cfg, c, w, more, io).0);
  }

  lemma SamePackets(cfg: Config, c: Chan, d: Chan)
    requires d.sent == c.sent && d.trans == c.trans && d.flags.awaitOpen == c.flags.awaitOpen
    ensures PacketsFit(cfg, c) == PacketsFit(cfg, d)
  {
  }

  lemma AdjustTended(cfg: Config, c: Chan, v: Watch)
    requires Tended(cfg, c, v)
    ensures var d := AdjustWindow(cfg, c);
            Tended(cfg, d, v) && d.fds == c.fds && d.recv.ext.Some? == c.recv.ext.Some?
  {
  }

  lemma WriteChannelTended(cfg: Config, c: Chan, v: Watch, w: Which, io: WriteIO)
    requires Tended(cfg, c, v) && HasStream(c.recv, w) && FdOf(c.fds, w) >= 0 && WriteChannel(cfg, c, w, io).Running?
    ensures Tended(cfg, WriteChannel(cfg, c, w, io).chan, v)
  {
    hide WriteOut, AdjustWindow, Tended, WindowAsserts;
    WriteOutTended(cfg, c, v, w, [], io);
    var out := if cfg.writev && StreamOf(c.recv, w).buf == [] then c else WriteOut(cfg, c, w, [], io).0;
    AdjustTended(cfg, out, v);
  }

  lemma AcceptTended(cfg: Config, c: Chan, v: Watch, w: Which, data: seq<U8>)
    requires Tended(cfg, c, v) && HasStream(c.recv, w) && FdOf(c.fds, w) >= 0 && |data| <= c.recv.window
    ensures var d := Accept(c, w, data); Tended(cfg, d, v) && d.fds == c.fds && HasStream(d.recv, w)
  {
  }

  lemma StoreTended(cfg: Config, c: Chan, v: Watch, w: Which, data: seq<U8>)
    requires Tended(cfg, c, v) && HasStream(c.recv, w) && FdOf(c.fds, w) >= 0
    ensures Tended(cfg, Store(c, w, data), v)
  {
  }

  lemma RecvDataTended(cfg: Config, c: Chan, v: Watch, w: Which, data: seq<U8>, io: WriteIO)
    requires Tended(cfg, c, v) && RecvData(cfg, c, w, data, io).Running?
    requires Inv(cfg, c) && !c.flags.recvEof && |data| <= c.recv.window
    ensures Tended(cfg, RecvData(cfg, c, w, data, io).chan, v)
  {
    hide WriteOut, AdjustWindow, Tended, Accept, Store, WindowAsserts, Inv;
    if !(FdOf(c.fds, w) < 0 || !HasStream(c.recv, w)) {
      WindowFits(cfg, c, w, |data|);
      AcceptTended(cfg, c, v, w, data);
      var c1 := Accept(c, w, data);
      WriteOutTended(cfg, c1, v, w, data, io);
      var (c2, consumed, success) := WriteOut(cfg, c1, w, data, io);
      AdjustTended(cfg, c2, v);
      if success { StoreTended(cfg, AdjustWindow(cfg, c2), v, w, data[consumed..]); }
    }
  }

  // -- Closing down --

  lemma FlushTended(cfg: Config, c: Chan, v: Watch, io1: ReadIO, io2: ReadIO)
    requires Tended(cfg, c, v) && Flush(cfg, c, io1, io2).Running?
    ensures Tended(cfg, Flush(cfg, c, io1, io2).chan, v)
  {
    hide SendData, Tended;
    if c.flags.flushing {
      NotFlushing(cfg, c, v);
      var c1 := c;
      if c.fds.read >= 0 && c.trans.window > 0 {
        SendDataTended(cfg, c, v, Main, io1);
        c1 := SendData(cfg, c, Main, io1).chan;
      }
      if ErrfdIsRead(c1) && c1.fds.err >= 0 && c1.trans.window > 0 { SendDataTended(cfg, c1, v, Extra, io2); }
    }
  }

  lemma SendEofTended(cfg: Config, c: Chan, v: Watch)
    requires Tended(cfg, c, v)
    ensures Tended(cfg, SendEof(c), v)
  {
  }

  /** CLOSE goes when every output is closed or drained. */
  lemma SendCloseTended(cfg: Config, c: Chan, v: Watch)
    requires Tended(cfg, c, v) && !WritePending(c)
    requires c.flags.recvClose || (c.fds.write == FD_CLOSED && AllReadClosed(c))
    requires c.flags.recvClose ==> c.flags.recvEof
    ensures Tended(cfg, SendClose(cfg, c), v)
  {
    hide PacketsFit;
    assert PacketsFit(cfg, SendClose(cfg, c)) by { ClosePackets(cfg, c); }
  }

  lemma ClosePackets(cfg: Config, c: Chan)
    requires PacketsFit(cfg, c)
    ensures PacketsFit(cfg, SendClose(cfg, c))
  {
    hide CloseAll;
  }

  lemma FinishTended(cfg: Config, c: Chan, v: Watch, allowed: bool)
    requires Tended(cfg, c, v) && Inv(cfg, c)
    ensures Tended(cfg, Finish(cfg, c, allowed), v)
  {
    hide Tended, SendClose, WritePending, FlowKept, LedgerKept, InputKept;
    var c1 := c;
    if !c.flags.sentEof && AllReadClosed(c) {
      SendEofTended(cfg, c, v);
      c1 := SendEof(c);
    }
    if AllReadClosed(c1) && c1.fds.write == FD_CLOSED && !c1.flags.sentClose && allowed && !WritePending(c1) {
      SendCloseTended(cfg, c1, v);
    }
  }

  /** The end of output. */
  lemma EndWriteTended(cfg: Config, c: Chan, v: Watch, allowed: bool)
    requires Tended(cfg, c, v) && Inv(cfg, c)
    requires (c.flags.recvEof && !WritePending(c)) || c.flags.flushing || c.flags.sentClose
    ensures Tended(cfg, Closing(cfg, c, c.fds.write, ShutWr), v)
  {
    hide PacketsFit, FlowKept, LedgerKept, InputKept;
    SamePackets(cfg, c, Closing(cfg, c, c.fds.write, ShutWr));
  }

  lemma CloseDownTended(cfg: Config, c: Chan, v: Watch, allowed: bool, io1: ReadIO, io2: ReadIO)
    requires Tended(cfg, c, v) && Inv(cfg, c)
    requires cfg.hasCheckClose && allowed ==> c.flags.flushing || c.flags.sentClose
    ensures CloseDown(cfg, c, allowed, io1, io2).Running? && Tended(cfg, CloseDown(cfg, c, allowed, io1, io2).chan, v)
  {
    hide Flush, Finish, Closing, Inv, WritePending, Tended;
    var c1 := c;
    if (c.flags.recvEof && !WritePending(c)) || (cfg.hasCheckClose && allowed) {
      c1 := Closing(cfg, c, c.fds.write, ShutWr);
      EndWriteTended(cfg, c, v, allowed);
    }
    ClosingKeeps(cfg, c, c.fds.write, ShutWr);
    FlushKeeps(cfg, c1, io1, io2);
    FlushTended(cfg, c1, v, io1, io2);
    FinishTended(cfg, Flush(cfg, c1, io1, io2).chan, v, allowed);
  }

  lemma FlushingTended(cfg: Config, c: Chan, v: Watch)
    requires Tended(cfg, c, v) && !v.input && cfg.hasCheckClose
    ensures Tended(cfg, c.(flags := c.flags.(flushing := true)), v)
  {
  }

  lemma RemovedTended(cfg: Config, c: Chan, v: Watch)
    requires Tended(cfg, c, v) && !WritePending(c) && c.flags.recvClose && c.flags.recvEof
    ensures Tended(cfg, Removed(c), v)
  {
  }

  lemma NothingPending(cfg: Config, c: Chan)
    ensures !WritePending(c) ==> !WritePending(SendClose(cfg, c))
    ensures SendClose(cfg, c).flags.recvClose == c.flags.recvClose && SendClose(cfg, c).flags.recvEof == c.flags.recvEof
  {
  }

  lemma CheckCloseTended(cfg: Config, c: Chan, v: Watch, exited: bool, io1: ReadIO, io2: ReadIO)
    requires Tended(cfg, c, v) && Inv(cfg, c) && (v.input ==> !exited)
    ensures CheckClose(cfg, c, exited, io1, io2).Running? && Tended(cfg, CheckClose(cfg, c, exited, io1, io2).chan, v)
  {
    hide CloseDown, SendClose, WritePending, Tended, FlowKept, LedgerKept, InputKept;
    var c1 := c;
    if !c.flags.flushing && !c.flags.sentClose && cfg.hasCheckClose && exited {
      FlushingTended(cfg, c, v);
      StartFlushing(cfg, c);
      c1 := c.(flags := c.flags.(flushing := true));
    }
    var allowed := !cfg.hasCheckClose || c1.flags.sentClose || exited;
    if c1.flags.recvClose && !WritePending(c1) && allowed {
      NothingPending(cfg, c1);
      SendCloseTended(cfg, c1, v);
      RemovedTended(cfg, if c1.flags.sentClose then c1 else SendClose(cfg, c1), v);
    } else {
      CloseDownTended(cfg, c1, v, allowed, io1, io2);
    }
  }

  // -- Turns and messages --

  /** The input does not end in this turn, nor does the process behind it. */
  predicate Goes(t: Turn) { !t.in1.EndOfFile? && !t.in2.EndOfFile? && !t.exited }

  lemma ChannelIOTended(cfg: Config, c: Chan, v: Watch, t: Turn)
    requires Tended(cfg, c, v) && Inv(cfg, c) && (v.input ==> Goes(t))
    ensures ChannelIO(cfg, c, t).Running? && Tended(cfg, ChannelIO(cfg, c, t).chan, v)
  {
    hide Reads, Writes, CheckClose, Inv, Keeps, Tended;
    ReadsKeep(cfg, c, t);
    ReadsTended(cfg, c, v, t);
    var c1 := Reads(cfg, c, t).0.chan;
    WritesKeep(cfg, c1, t);
    WritesTended(cfg, c1, v, t);
    CheckCloseTended(cfg, Writes(cfg, c1, t).0.chan, v, t.exited, t.flush1, t.flush2);
  }

  lemma ReadsTended(cfg: Config, c: Chan, v: Watch, t: Turn)
    requires Tended(cfg, c, v) && Reads(cfg, c, t).0.Running? && (v.input ==> Goes(t))
    ensures Tended(cfg, Reads(cfg, c, t).0.chan, v)
  {
    hide SendData, Tended;
    var c1 := c;
    if c.fds.read >= 0 && t.read {
      SendDataTended(cfg, c, v, Main, t.in1);
      c1 := SendData(cfg, c, Main, t.in1).chan;
    }
    if ErrfdIsRead(c1) && c1.fds.err >= 0 && t.readErr { SendDataTended(cfg, c1, v, Extra, t.in2); }
  }

  lemma WritesTended(cfg: Config, c: Chan, v: Watch, t: Turn)
    requires Tended(cfg, c, v) && Writes(cfg, c, t).0.Running?
    ensures Tended(cfg, Writes(cfg, c, t).0.chan, v)
  {
    hide WriteChannel, Tended;
    var c1 := c;
    if c.fds.write >= 0 && t.write {
      WriteChannelTended(cfg, c, v, Main, t.out1);
      c1 := WriteChannel(cfg, c, Main, t.out1).chan;
    }
    if !ErrfdIsRead(c1) && c1.fds.err >= 0 && t.writeErr { WriteChannelTended(cfg, c1, v, Extra, t.out2); }
  }

  /** A message noted alone. */
  lemma NotedTended(cfg: Config, c: Chan, v: Watch, window: nat, eof: bool, close: bool)
    requires Tended(cfg, c, v) && (c.flags.recvEof ==> eof) && (c.flags.recvClose ==> close)
    ensures Tended(cfg, c.(trans := c.trans.(window := window), got := c.got + 1,
                flags := c.flags.(recvEof := eof, recvClose := close)), v)
  {
  }

  lemma ConfirmedTended(cfg: Config, c: Chan, v: Watch, trans: Trans)
    requires Tended(cfg, c, v) && c.flags.awaitOpen && trans.maxpacket == v.max
    ensures Tended(cfg, c.(trans := trans, got := c.got + 1, flags := c.flags.(awaitOpen := false)), v)
  {
  }

  lemma ReceiveTended(cfg: Config, c: Chan, v: Watch, m: Msg, t: Turn)
    requires Tended(cfg, c, v) && Inv(cfg, c) && c.live && Expected(c, m) && (v.input ==> Goes(t))
    requires m.Confirm? ==> m.maxpacket == v.max
    ensures Receive(cfg, c, m, t).Running? && Tended(cfg, Receive(cfg, c, m, t).chan, v)
  {
    hide RecvData, CheckClose, Inv, Keeps, After, Tended, Widened, Goes;
    ReceiveKeeps(cfg, c, m, t);
    var g := c.flags;
    match m
    case Open(_, _) =>
    case Confirm(n, maxpacket) => ConfirmedTended(cfg, c, v, Trans(n, maxpacket));
    case Adjust(n) => NotedTended(cfg, c, v, Widened(c.trans.window, n), g.recvEof, g.recvClose);
    case Data(bytes) => DataTended(cfg, c, v, Main, bytes, t.out1);
    case ExtData(bytes) => DataTended(cfg, c, v, Extra, bytes, t.out2);
    case Eof => EndTended(cfg, c, v, g.recvClose, t);
    case Close => EndTended(cfg, c, v, true, t);
  }

  lemma DataTended(cfg: Config, c: Chan, v: Watch, w: Which, bytes: seq<U8>, io: WriteIO)
    requires Tended(cfg, c, v) && Inv(cfg, c) && !c.flags.recvEof && |bytes| <= c.recv.window
    ensures var c1 := c.(got := c.got + 1);
            Tended(cfg, c1, v) && (RecvData(cfg, c1, w, bytes, io).Running? ==>
                Tended(cfg, RecvData(cfg, c1, w, bytes, io).chan, v))
  {
    hide RecvData, Inv, Tended;
    var g := c.flags;
    NotedTended(cfg, c, v, c.trans.window, g.recvEof, g.recvClose);
    Aside(cfg, c, c.trans, g.recvEof, g.recvClose, g.awaitOpen, c.got + 1);
    var c1 := c.(got := c.got + 1);
    if RecvData(cfg, c1, w, bytes, io).Running? { RecvDataTended(cfg, c1, v, w, bytes, io); }
  }

  lemma EndTended(cfg: Config, c: Chan, v: Watch, close: bool, t: Turn)
    requires Tended(cfg, c, v) && Inv(cfg, c) && (c.flags.recvClose ==> close) && (v.input ==> Goes(t))
    ensures var c1 := c.(got := c.got + 1, flags := c.flags.(recvEof := true, recvClose := close));
            var r := CheckClose(cfg, c1, t.exited, t.flush1, t.flush2);
            r.Running? && Tended(cfg, r.chan, v)
  {
    hide CheckClose, Inv, Tended;
    Aside(cfg, c, c.trans, true, close, c.flags.awaitOpen, c.got + 1);
    NotedTended(cfg, c, v, c.trans.window, true, close);
    var c1 := c.(got := c.got + 1, flags := c.flags.(recvEof := true, recvClose := close));
    CheckCloseTended(cfg, c1, v, t.exited, t.flush1, t.flush2);
  }

  // -- Runs --

  /** Nothing for the stream was dropped. */
  ghost predicate Whole(c: Chan, d: Chan, w: Which) {
    || Excused(c)
    || (HasStream(c.recv, w) && c.got <= |d.sent| && StreamOf(c.recv, w).accepted == DataOf(w, d.sent[..c.got]))
  }

  lemma WholeKept(c: Chan, c1: Chan, d: Chan, w: Which)
    requires Whole(c, d, w) && Keeps(c, c1) && (Excused(c) ==> Excused(c1))
    ensures Whole(c1, d, w)
  {
    hide DataOf;
  }

  lemma WholeAfter(cfg: Config, c: Chan, d: Chan, w: Which)
    requires Whole(c, d, w) && c.got < |d.sent| && Expected(c, d.sent[c.got]) && (Excused(c) || Fine(c, w))
    requires w == Extra ==> cfg.acceptsExt
    ensures Whole(After(cfg, c, d.sent[c.got]), d, w) && Excused(After(cfg, c, d.sent[c.got])) == Excused(c)
  {
    hide DataOf, CreditOf;
    var m, ms := d.sent[c.got], d.sent[..c.got];
    assert d.sent[..c.got + 1] == ms + [m];
    SendOne(ms, m);
  }

  lemma WholeToMore(c: Chan, d: Chan, d1: Chan, w: Which)
    requires Whole(c, d, w) && d.sent <= d1.sent
    ensures Whole(c, d1, w)
  {
    assert c.got <= |d.sent| ==> d1.sent[..c.got] == d.sent[..c.got];
  }

  ghost predicate Announces(d: Chan, max: nat) { d.sent != [] && IsOpening(d.sent[0]) && d.sent[0].maxpacket == max }

  /** One side as it is watched. */
  ghost predicate SideTended(cs: Configs, p: Pair, side: Side, v: Watch) {
    var c, d, cfg := Me(p, side), Peer(p, side), CfgOf(cs, side);
    && Tended(cfg, c, v) && Announces(d, v.max)
    && (v.output ==> Whole(c, d, Main)) && (v.output && v.both ==> cfg.acceptsExt && Whole(c, d, Extra))
  }

  /** What a step at a side must not do while its input is watched. */
  predicate Quiet(step: Step, side: Side) { step.side == side && !step.SetUp? ==> Goes(step.t) }

  lemma OtherMoves(cs: Configs, p: Pair, side: Side, v: Watch, d1: Chan)
    requires SideTended(cs, p, Other(side), v) && Me(p, side).sent <= d1.sent
    ensures SideTended(cs, With(p, side, Running(d1)).pair, Other(side), v)
  {
    hide Tended, Whole;
    var c := Peer(p, side);
    if v.output {
      WholeToMore(c, Me(p, side), d1, Main);
      if v.both { WholeToMore(c, Me(p, side), d1, Extra); }
    }
  }

  /** An excuse stays one. */
  lemma StillExcused(cfg: Config, c: Chan, v: Watch)
    requires Tended(cfg, c, v) && v.output
    ensures Excused(c) ==> Tended(cfg, c, v.(excused := true))
    ensures v.excused ==> Excused(c)
    ensures Excused(c) || (Fine(c, Main) && (v.both ==> Fine(c, Extra)))
  {
    hide PacketsFit, Apart, Fine;
  }

  lemma TurnTended(cs: Configs, p: Pair, side: Side, v: Watch, t: Turn)
    requires PairOk(cs, p) && SideTended(cs, p, side, v) && (v.input ==> Goes(t))
    ensures var r := ChannelIO(CfgOf(cs, side), Me(p, side), t);
            r.Running? && SideTended(cs, With(p, side, r).pair, side, v)
  {
    hide Tended, Whole, Inv, Linked, Keeps, ChannelIO, Excused, Fine;
    var c, d, cfg := Me(p, side), Peer(p, side), CfgOf(cs, side);
    ChannelIOKeeps(cfg, c, t);
    ChannelIOTended(cfg, c, v, t);
    var c1 := ChannelIO(cfg, c, t).chan;
    if v.output {
      StillExcused(cfg, c, v);
      if Excused(c) {
        ChannelIOTended(cfg, c, v.(excused := true), t);
        StillExcused(cfg, c1, v.(excused := true));
      }
      WholeKept(c, c1, d, Main);
      if v.both { WholeKept(c, c1, d, Extra); }
    }
  }

  /** Only the first message confirms. */
  lemma ConfirmIsFirst(cs: Configs, p: Pair, side: Side)
    requires PairOk(cs, p) && Me(p, side).got < |Peer(p, side).sent|
    requires Expected(Me(p, side), Peer(p, side).sent[Me(p, side).got])
    ensures Peer(p, side).sent[Me(p, side).got].Confirm? ==> Me(p, side).got == 0
  {
    hide Inv, Granted, InOrder;
  }

  lemma DeliveryTended(cs: Configs, p: Pair, side: Side, v: Watch, t: Turn)
    requires PairOk(cs, p) && SideTended(cs, p, side, v) && (v.input ==> Goes(t))
    requires Me(p, side).got < |Peer(p, side).sent|
    ensures var r := Receive(CfgOf(cs, side), Me(p, side), Peer(p, side).sent[Me(p, side).got], t);
            r.Running? && SideTended(cs, With(p, side, r).pair, side, v)
  {
    hide Tended, Whole, Inv, Linked, Keeps, Receive, Excused, Fine, After, Expected;
    var c, d, cfg := Me(p, side), Peer(p, side), CfgOf(cs, side);
    var m := d.sent[c.got];
    NextIsExpected(cs, p, side);
    ConfirmIsFirst(cs, p, side);
    ReceiveKeeps(cfg, c, m, t);
    ReceiveTended(cfg, c, v, m, t);
    var a, c1 := After(cfg, c, m), Receive(cfg, c, m, t).chan;
    if v.output {
      StillExcused(cfg, c, v);
      if Excused(c) {
        ReceiveTended(cfg, c, v.(excused := true), m, t);
        StillExcused(cfg, c1, v.(excused := true));
      }
      WholeAfter(cfg, c, d, Main);
      WholeKept(a, c1, d, Main);
      if v.both {
        WholeAfter(cfg, c, d, Extra);
        WholeKept(a, c1, d, Extra);
      }
    }
  }

  lemma SetUpTended(cs: Configs, p: Pair, side: Side, v: Watch, fds: Fds, extra: bool)
    requires SideTended(cs, p, side, v) && CanStart(Me(p, side), fds)
    ensures SideTended(cs, With(p, side, Running(Start(Me(p, side), fds, extra))).pair, side, v)
  {
    hide Whole, PacketsFit;
    SamePackets(CfgOf(cs, side), Me(p, side), Start(Me(p, side), fds, extra));
  }

  lemma StepTended(cs: Configs, p: Pair, side: Side, v: Watch, step: Step)
    requires PairOk(cs, p) && SideTended(cs, p, side, v) && (v.input ==> Quiet(step, side))
    ensures Do(cs, p, step).Still? && SideTended(cs, Do(cs, p, step).pair, side, v)
  {
    hide PairOk, SideTended, ChannelIO, Receive, CanStart, Start, With;
    DoKeeps(cs, p, step);
    if step.side == side {
      match step
      case Turns(_, t) => if Me(p, side).live { TurnTended(cs, p, side, v, t); }
      case Deliver(_, t) => if Me(p, side).got < |Peer(p, side).sent| { DeliveryTended(cs, p, side, v, t); }
      case SetUp(_, fds, extra) => if CanStart(Me(p, side), fds) { SetUpTended(cs, p, side, v, fds, extra); }
    } else {
      OtherSteps(cs, p, side, v, step);
    }
  }

  lemma OtherSteps(cs: Configs, p: Pair, side: Side, v: Watch, step: Step)
    requires PairOk(cs, p) && SideTended(cs, p, side, v) && step.side != side
    ensures Do(cs, p, step).Still? && SideTended(cs, Do(cs, p, step).pair, side, v)
  {
    hide PairOk, SideTended, ChannelIO, Receive;
    SentGrows(cs, p, step);
    OtherMoves(cs, p, step.side, v, Me(Do(cs, p, step).pair, step.side));
  }

  /** A step changes its own side only, and takes back nothing that was sent. */
  lemma SentGrows(cs: Configs, p: Pair, step: Step)
    requires PairOk(cs, p)
    ensures Do(cs, p, step).Still?
    ensures var c := Me(Do(cs, p, step).pair, step.side);
            Me(p, step.side).sent <= c.sent && Do(cs, p, step) == With(p, step.side, Running(c))
  {
    hide Inv, Linked, ChannelIO, Receive, After, Expected;
    var c, cfg, side := Me(p, step.side), CfgOf(cs, step.side), step.side;
    match step
    case Turns(_, t) => ChannelIOKeeps(cfg, c, t);
    case Deliver(_, t) =>
      if c.got < |Peer(p, side).sent| {
        NextIsExpected(cs, p, side);
        ReceiveKeeps(cfg, c, Peer(p, side).sent[c.got], t);
        LinkedAfter(cfg, c, Peer(p, side));
      }
    case SetUp(_, fds, extra) =>
  }

  lemma {:induction false} RunTended(cs: Configs, p: Pair, side: Side, v: Watch, steps: seq<Step>)
    requires PairOk(cs, p) && SideTended(cs, p, side, v)
    requires v.input ==> forall i :: 0 <= i < |steps| ==> Quiet(steps[i], side)
    ensures Run(cs, p, steps).Still? && SideTended(cs, Run(cs, p, steps).pair, side, v)
    decreases |steps|
  {
    hide PairOk, SideTended, Do, Quiet;
    if steps != [] {
      DoKeeps(cs, p, steps[0]);
      StepTended(cs, p, side, v, steps[0]);
      RunTended(cs, Do(cs, p, steps[0]).pair, side, v, steps[1..]);
    }
  }

  // -- What holds in every run --

  function MaxFor(side: Side, maxA: nat, maxB: nat): nat { if side == Opener then maxB else maxA }

  lemma InitialTended(cs: Configs, maxA: nat, maxB: nat, side: Side)
    ensures SideTended(cs, Initial(cs, maxA, maxB), side, Watch(false, false, false, false, MaxFor(side, maxA, maxB)))
  {
  }

  /** In every run no packet of data is larger than the other side announced, nor than the buffer for it. */
  lemma PacketSizes(cs: Configs, p: Pair, maxA: nat, maxB: nat, steps: seq<Step>, side: Side)
    requires Reached(cs, p, maxA, maxB, steps)
    ensures var x, y, cfg := Me(p, side), Peer(p, side), CfgOf(cs, side);
            && y.sent != [] && IsOpening(y.sent[0]) && y.sent[0].maxpacket == MaxFor(side, maxA, maxB)
            && forall i :: 0 <= i < |x.sent| && IsData(x.sent[i]) ==>
                 && |x.sent[i].bytes| <= y.sent[0].maxpacket
                 && |x.sent[i].bytes| <= if x.sent[i].Data? then cfg.maxData else cfg.maxExtData
  {
    hide Run, PairOk, Whole;
    InitialOk(cs, maxA, maxB);
    InitialTended(cs, maxA, maxB, side);
    RunTended(cs, Initial(cs, maxA, maxB), side, Watch(false, false, false, false, MaxFor(side, maxA, maxB)), steps);
  }

  lemma {:induction false} NoData(w: Which, ms: seq<Msg>)
    requires forall i :: 0 <= i < |ms| ==> !IsData(ms[i])
    ensures DataOf(w, ms) == []
    decreases |ms|
  {
    if ms != [] { NoData(w, ms[..|ms| - 1]); }
  }

  /** After EOF the data is complete. */
  lemma CompleteAtEof(w: Which, ms: seq<Msg>, k: nat)
    requires WellOrdered(ms) && k <= |ms| && SaysEof(ms[..k])
    ensures DataOf(w, ms) == DataOf(w, ms[..k])
  {
    hide DataOf;
    var i :| 0 <= i < k && (ms[..k][i].Eof? || ms[..k][i].Close?);
    assert ms[i] == ms[..k][i];
    assert forall j :: 0 <= j < |ms[k..]| ==> ms[k..][j] == ms[k + j];
    NoData(w, ms[k..]);
    DataSplit(w, ms, k);
    assert DataOf(w, ms[..k]) + [] == DataOf(w, ms[..k]);
  }

  /** A state from which on a side is watched. */
  lemma Watched(cs: Configs, p: Pair, maxA: nat, maxB: nat, steps: seq<Step>, side: Side, v: Watch)
    requires Reached(cs, p, maxA, maxB, steps) && Apart(CfgOf(cs, side), Me(p, side))
    requires v.max == MaxFor(side, maxA, maxB) && !v.excused
    requires v.output ==> Me(p, side).fds.write >= 0
    requires v.output && v.both ==> Stores(CfgOf(cs, side), Me(p, side), Extra)
    requires v.input ==> Me(p, side).fds.read >= 0 && !Me(p, side).flags.flushing
    ensures PairOk(cs, p) && SideTended(cs, p, side, v)
  {
    hide Run, Inv, PacketsFit, Apart, Granted, Ended, DataOf;
    RunsNeverHalt(cs, maxA, maxB, steps);
    InitialOk(cs, maxA, maxB);
    InitialTended(cs, maxA, maxB, side);
    RunTended(cs, Initial(cs, maxA, maxB), side, Watch(false, false, false, false, v.max), steps);
  }

  /** An output that is open at some point of a run, and is no input at once unless the directions are shut down apart,
      is closed later only after a failed write, or once the type's own check has found its process gone, or when EOF
      has come and every byte that was ever read at the other side has been written. */
  lemma NothingCutOff(cs: Configs, p: Pair, q: Pair, maxA: nat, maxB: nat, before: seq<Step>, after: seq<Step>,
                      side: Side, w: Which)
    requires Reached(cs, p, maxA, maxB, before) && Run(cs, p, after) == Still(q)
    requires Apart(CfgOf(cs, side), Me(p, side)) && Me(p, side).fds.write >= 0
    requires Stores(CfgOf(cs, side), Me(p, side), w)
    ensures var x, y := Me(q, side), Peer(q, side);
            || FdOf(x.fds, w) >= 0 || Failed(x.recv) || (x.flags.flushing && CfgOf(cs, side).hasCheckClose)
            || (HasStream(x.recv, w) && x.flags.recvEof && StreamOf(x.recv, w).written == InputOf(y.input, w))
  {
    hide Run, Apart, PacketsFit, Whole, Inv, Linked, Stores, Do;
    var v := Watch(true, w == Extra, false, false, MaxFor(side, maxA, maxB));
    Watched(cs, p, maxA, maxB, before, side, v);
    RunTended(cs, p, side, v, after);
    RunKeeps(cs, p, after);
    var x, y := Me(q, side), Peer(q, side);
    if FdOf(x.fds, w) < 0 && !Excused(x) { AllWritten(cs, q, side, w); }
  }

  lemma AllWritten(cs: Configs, p: Pair, side: Side, w: Which)
    requires PairOk(cs, p) && Fine(Me(p, side), w) && Whole(Me(p, side), Peer(p, side), w) && !Excused(Me(p, side))
    requires FdOf(Me(p, side).fds, w) < 0
    ensures StreamOf(Me(p, side).recv, w).written == InputOf(Peer(p, side).input, w)
  {
    hide LedgerKept, DoneKept, Granted, InOrder, DataOf, CreditOf, SaysEof, WellOrdered;
    var x, y := Me(p, side), Peer(p, side);
    var s := StreamOf(x.recv, w);
    assert EndOk(cs, p, side) && EndOk(cs, p, Other(side));
    CompleteAtEof(w, y.sent, x.got);
    Trimmed(s, FdOf(x.fds, w));
    assert s.written + [] == s.written;
  }

  /** An input that is open at some point of a run, and is no output at once unless the directions are shut down apart,
      stays open and no EOF is sent while it does not end and no process behind it is gone, unless a write fails or the
      other side closes the channel. */
  lemma InputStaysOpen(cs: Configs, p: Pair, q: Pair, maxA: nat, maxB: nat, before: seq<Step>, after: seq<Step>,
                       side: Side)
    requires Reached(cs, p, maxA, maxB, before) && Run(cs, p, after) == Still(q)
    requires Apart(CfgOf(cs, side), Me(p, side)) && Me(p, side).fds.read >= 0 && !Me(p, side).flags.flushing
    requires forall i :: 0 <= i < |after| ==> Quiet(after[i], side)
    ensures var x, y := Me(q, side), Peer(q, side);
            || (x.live && x.fds.read >= 0 && !SaysEof(x.sent)) || Failed(x.recv)
            || (x.got <= |y.sent| && SaysClose(y.sent[..x.got]))
  {
    hide Run, Apart, PacketsFit, Whole, FlowKept, LedgerKept, InputKept, Granted, InOrder, SaysEof, SaysClose, Do,
         Quiet, WellOrdered;
    var v := Watch(false, false, true, false, MaxFor(side, maxA, maxB));
    Watched(cs, p, maxA, maxB, before, side, v);
    RunTended(cs, p, side, v, after);
    RunKeeps(cs, p, after);
    assert EndOk(cs, q, side);
  }

  /** Without descriptors apart it does not hold: the end of an input closes an open output, whatever waits there. */
  lemma SharedIsCutOff(cfg: Config, c: Chan) returns (from: Which, to: Which)
    requires !Apart(cfg, c) && !c.flags.sentClose && MaxRead(cfg, c, Main) > 0 && MaxRead(cfg, c, Extra) > 0
    ensures var r := SendData(cfg, c, from, EndOfFile);
            r.Running? && HasStream(c.recv, to) && FdOf(c.fds, to) >= 0 > FdOf(r.chan.fds, to) && r.chan.recv == c.recv
  {
    from := if ErrfdIsRead(c) && c.fds.read != c.fds.write then Extra else Main;
    to := if c.fds.write >= 0 && (c.fds.read == c.fds.write || ErrfdIsRead(c)) then Main else Extra;
  }
}
