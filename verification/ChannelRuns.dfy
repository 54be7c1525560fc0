/** Two ends of one channel over ordered links, and what holds in every run of them. */
module ChannelRuns {
  import opened Bits
  import opened ChannelModel
  import opened Common
  import opened ChannelInvariant

  /** The end that opened the channel and the end that confirmed it. Each end's messages travel in
      order: the other end has taken the first got of them. */
  datatype Pair = Pair(opener: Chan, responder: Chan)
  datatype Configs = Configs(opener: Config, responder: Config)
  datatype Side = Opener | Responder

  /** A turn of channelio, the delivery of the next message, or the set-up of the descriptors at one side. */
  datatype Step = Turns(side: Side, t: Turn) | Deliver(side: Side, t: Turn) | SetUp(side: Side, fds: Fds, extra: bool)

  datatype Result = Still(pair: Pair) | Halted(why: Reason)

  function Me(p: Pair, side: Side): Chan { if side == Opener then p.opener else p.responder }
  function Peer(p: Pair, side: Side): Chan { if side == Opener then p.responder else p.opener }
  function CfgOf(cs: Configs, side: Side): Config { if side == Opener then cs.opener else cs.responder }
  function Other(side: Side): Side { if side == Opener then Responder else Opener }

  function With(p: Pair, side: Side, r: Outcome): Result {
    match r
    case Stopped(why) => Halted(why)
    case Running(c) => Still(if side == Opener then p.(opener := c) else p.(responder := c))
  }

  /** The responder has taken the opening message and answered it. */
  function Initial(cs: Configs, maxA: nat, maxB: nat): Pair {
    Pair(NewChannel(cs.opener, Open(cs.opener.window, maxA), Trans(0, 0), true, 0),
         NewChannel(cs.responder, Confirm(cs.responder.window, maxB),
                    Trans(Min(cs.opener.window, TRANS_MAX_WINDOW), maxA), false, 1))
  }

  /** One step; a step that is not possible changes nothing. Descriptors are set up before any data
      has come for them. */
  function Do(cs: Configs, p: Pair, step: Step): Result {
    var c := Me(p, step.side);
    var cfg := CfgOf(cs, step.side);
    match step
    case Turns(side, t) => if c.live then With(p, side, ChannelIO(cfg, c, t)) else Still(p)
    case Deliver(side, t) =>
      if c.got < |Peer(p, side).sent| then With(p, side, Receive(cfg, c, Peer(p, side).sent[c.got], t)) else Still(p)
    case SetUp(side, fds, extra) =>
      if CanStart(c, fds) && c.got <= |Peer(p, side).sent| && DataLen(Peer(p, side).sent[..c.got]) == 0
      then With(p, side, Running(Start(c, fds, extra))) else Still(p)
  }

  function Run(cs: Configs, p: Pair, steps: seq<Step>): Result
    decreases |steps|
  {
    if steps == [] then Still(p)
    else
      match Do(cs, p, steps[0])
      case Halted(why) => Halted(why)
      case Still(q) => Run(cs, q, steps[1..])
  }

  // -- What links one end to the messages of the other --

  /** The window c may still send, with all it has sent, is what it has been granted. */
  ghost predicate Granted(c: Chan, d: Chan)
    requires c.got <= |d.sent|
  {
    c.trans.window + DataLen(c.sent) == CreditOf(d.sent[..c.got])
  }

  /** What c has accepted begins what d has sent it, and is all of it while the descriptor is open. */
  ghost predicate InOrder(cfg: Config, c: Chan, d: Chan, w: Which)
    requires c.got <= |d.sent|
  {
    HasStream(c.recv, w) ==>
      && StreamOf(c.recv, w).accepted <= DataOf(w, d.sent[..c.got])
      && (Stores(cfg, c, w) ==> StreamOf(c.recv, w).accepted == DataOf(w, d.sent[..c.got]))
  }

  ghost predicate Ended(c: Chan, d: Chan)
    requires c.got <= |d.sent|
  {
    && (c.flags.recvEof <==> SaysEof(d.sent[..c.got]))
    && (c.flags.recvClose <==> SaysClose(d.sent[..c.got]))
    && (c.flags.awaitOpen <==> c.got == 0)
    && d.sent != [] && (c.got == 0 ==> d.sent[0].Confirm?)
  }

  ghost predicate Linked(cfg: Config, c: Chan, d: Chan) {
    && c.got <= |d.sent|
    && Granted(c, d) && InOrder(cfg, c, d, Main) && InOrder(cfg, c, d, Extra) && Ended(c, d)
  }

  /** One end's own invariant and its link to the other. */
  ghost predicate EndOk(cs: Configs, p: Pair, side: Side) {
    Inv(CfgOf(cs, side), Me(p, side)) && Linked(CfgOf(cs, side), Me(p, side), Peer(p, side))
  }

  ghost predicate PairOk(cs: Configs, p: Pair) { EndOk(cs, p, Opener) && EndOk(cs, p, Responder) }

  ghost predicate ResultOk(cs: Configs, r: Result) { r.Still? && PairOk(cs, r.pair) }

  // -- Steps keep the links --

  /** A handler at c that takes nothing keeps c's link. */
  lemma LinkedKeeps(cfg: Config, c: Chan, c1: Chan, d: Chan)
    requires Linked(cfg, c, d) && Keeps(c, c1)
    ensures Linked(cfg, c1, d)
  {
  }

  /** What d has sent since does not matter for the messages c has taken. */
  lemma LinkedToMore(cfg: Config, c: Chan, d: Chan, d1: Chan)
    requires Linked(cfg, c, d) && d.sent <= d1.sent
    ensures Linked(cfg, c, d1)
  {
    assert d1.sent[..c.got] == d.sent[..c.got];
  }

  /** A move of one side that keeps its invariant and its link keeps the pair. */
  lemma MoveKeeps(cs: Configs, p: Pair, side: Side, c1: Chan)
    requires PairOk(cs, p) && Inv(CfgOf(cs, side), c1) && Linked(CfgOf(cs, side), c1, Peer(p, side))
    requires Me(p, side).sent <= c1.sent
    ensures ResultOk(cs, With(p, side, Running(c1)))
  {
    hide Inv, Linked;
    LinkedToMore(CfgOf(cs, Other(side)), Peer(p, side), Me(p, side), c1);
  }

  lemma TurnsKeep(cs: Configs, p: Pair, side: Side, t: Turn)
    requires PairOk(cs, p)
    ensures ResultOk(cs, With(p, side, ChannelIO(CfgOf(cs, side), Me(p, side), t)))
  {
    hide Inv, Linked, ChannelIO;
    var c, cfg := Me(p, side), CfgOf(cs, side);
    ChannelIOKeeps(cfg, c, t);
    var c1 := ChannelIO(cfg, c, t).chan;
    LinkedKeeps(cfg, c, c1, Peer(p, side));
    MoveKeeps(cs, p, side, c1);
  }

  lemma LinkedStart(cfg: Config, c: Chan, d: Chan, fds: Fds, extra: bool)
    requires Linked(cfg, c, d) && CanStart(c, fds) && DataLen(d.sent[..c.got]) == 0
    ensures Linked(cfg, Start(c, fds, extra), d) && Start(c, fds, extra).sent == c.sent
  {
    hide DataOf, CreditOf;
  }

  lemma SetUpKeeps(cs: Configs, p: Pair, side: Side, fds: Fds, extra: bool)
    requires PairOk(cs, p) && CanStart(Me(p, side), fds)
    requires Me(p, side).got <= |Peer(p, side).sent| && DataLen(Peer(p, side).sent[..Me(p, side).got]) == 0
    ensures ResultOk(cs, With(p, side, Running(Start(Me(p, side), fds, extra))))
  {
    hide Inv, Linked, Start;
    var c, cfg := Me(p, side), CfgOf(cs, side);
    StartKeeps(cfg, c, fds, extra);
    LinkedStart(cfg, c, Peer(p, side), fds, extra);
    MoveKeeps(cs, p, side, Start(c, fds, extra));
  }

  // -- Messages in flight --

  lemma NoMessages(w: Which)
    ensures DataOf(w, []) == [] && CreditOf([]) == 0
  {
  }

  lemma {:induction false} DataSplit(w: Which, ms: seq<Msg>, i: nat)
    requires i <= |ms|
    ensures DataOf(w, ms) == DataOf(w, ms[..i]) + DataOf(w, ms[i..])
    ensures CreditOf(ms) == CreditOf(ms[..i]) + CreditOf(ms[i..])
    decreases |ms|
  {
    hide DataOf, CreditOf;
    if i == |ms| {
      assert ms[..i] == ms && ms[i..] == [];
      NoMessages(w);
    } else {
      var ns, m := ms[..|ms| - 1], ms[|ms| - 1];
      DataSplit(w, ns, i);
      assert ms == ns + [m] && ns[..i] == ms[..i] && ms[i..] == ns[i..] + [m];
      SendOne(ns, m);
      SendOne(ns[i..], m);
      Regroup(DataOf(w, ns[..i]), DataOf(w, ns[i..]), Payload(w, m));
    }
  }

  /** The bytes that c took off the wire and dropped because the descriptor was closed. */
  function Dropped(c: Chan, d: Chan): int
    requires c.got <= |d.sent|
  {
    DataLen(d.sent[..c.got]) - Accepted(c.recv)
  }

  lemma NothingNegative(cfg: Config, c: Chan, d: Chan)
    requires Linked(cfg, c, d)
    ensures Dropped(c, d) >= 0
  {
  }

  /** Credit is conserved: what a sender may send, the data and the grants in flight and what was
      dropped are together the receiver's window. */
  lemma CreditConserved(cs: Configs, p: Pair, side: Side)
    requires PairOk(cs, p)
    ensures var x, y := Me(p, side), Peer(p, side);
            && y.got <= |x.sent| && x.got <= |y.sent| && Dropped(y, x) >= 0
            && x.trans.window + DataLen(x.sent[y.got..]) + CreditOf(y.sent[x.got..]) + Dropped(y, x) == y.recv.window
  {
    var x, y := Me(p, side), Peer(p, side);
    DataSplit(Main, x.sent, y.got);
    DataSplit(Extra, x.sent, y.got);
    DataSplit(Main, y.sent, x.got);
    NothingNegative(CfgOf(cs, Other(side)), y, x);
  }

  // -- Delivery --

  /** One more message taken. */
  lemma TakeOne(ms: seq<Msg>, k: nat)
    requires k < |ms|
    ensures ms[..k + 1] == ms[..k] + [ms[k]]
    ensures CreditOf(ms[k..]) >= Grant(ms[k]) && DataLen(ms[k..]) >= |Payload(Main, ms[k])| + |Payload(Extra, ms[k])|
  {
    hide DataOf, CreditOf;
    var rest := ms[k..];
    DataSplit(Main, rest, 1);
    DataSplit(Extra, rest, 1);
    assert rest[..1] == [] + [ms[k]];
    SendOne([], ms[k]);
  }

  lemma CloseIsLast(ms: seq<Msg>, i: nat)
    requires WellOrdered(ms) && i < |ms| && ms[i].Close?
    ensures i == |ms| - 1
  {
    var last := ms[|ms| - 1];
  }

  /** After EOF no data, after CLOSE nothing, and no second opening message. */
  lemma NextInOrder(ms: seq<Msg>, k: nat)
    requires WellOrdered(ms) && k < |ms|
    ensures !SaysClose(ms[..k]) && (SaysEof(ms[..k]) ==> !IsData(ms[k])) && (k > 0 ==> !IsOpening(ms[k]))
  {
    var next := ms[k];
    assert forall i :: 0 <= i < k ==> ms[..k][i] == ms[i];
    assert k > 0 ==> !ms[0].Close?;
  }

  /** Of two ends in step the next message is one that may come. */
  lemma NextIsExpected(cs: Configs, p: Pair, side: Side)
    requires PairOk(cs, p) && Me(p, side).got < |Peer(p, side).sent|
    ensures Me(p, side).live && Expected(Me(p, side), Peer(p, side).sent[Me(p, side).got])
  {
    hide FlowKept, LedgerKept, Granted, InOrder, WellOrdered, SaysEof, SaysClose, DataOf, CreditOf, Dropped;
    var x, y := Me(p, side), Peer(p, side);
    CreditConserved(cs, p, side);
    CreditConserved(cs, p, Other(side));
    TakeOne(y.sent, x.got);
    NextInOrder(y.sent, x.got);
    SmallWindows(cs, p, side);
  }

  lemma SmallWindows(cs: Configs, p: Pair, side: Side)
    requires PairOk(cs, p)
    ensures Peer(p, side).recv.window <= TRANS_MAX_WINDOW
  {
  }

  lemma GrantedAfter(cfg: Config, c: Chan, d: Chan, ms: seq<Msg>, m: Msg)
    requires c.got < |d.sent| && ms == d.sent[..c.got] && m == d.sent[c.got] && d.sent[..c.got + 1] == ms + [m]
    requires Expected(c, m)
    requires Granted(c, d) && Ended(c, d)
    ensures Granted(After(cfg, c, m), d)
  {
    hide DataOf;
    SendOne(ms, m);
  }

  lemma InOrderAfter(cfg: Config, c: Chan, d: Chan, ms: seq<Msg>, m: Msg, w: Which)
    requires c.got < |d.sent| && ms == d.sent[..c.got] && m == d.sent[c.got] && d.sent[..c.got + 1] == ms + [m]
    requires Expected(c, m)
    requires InOrder(cfg, c, d, w)
    ensures InOrder(cfg, After(cfg, c, m), d, w)
  {
    hide DataOf, CreditOf;
    SendOne(ms, m);
  }

  lemma EndedAfter(cfg: Config, c: Chan, d: Chan, ms: seq<Msg>, m: Msg)
    requires c.got < |d.sent| && ms == d.sent[..c.got] && m == d.sent[c.got] && d.sent[..c.got + 1] == ms + [m]
    requires Expected(c, m)
    requires Ended(c, d)
    ensures Ended(After(cfg, c, m), d)
  {
    hide DataOf, CreditOf, SaysEof, SaysClose;
    SendOne(ms, m);
  }

  /** Taking the next message keeps the link: it counts on both sides. */
  lemma LinkedAfter(cfg: Config, c: Chan, d: Chan)
    requires Linked(cfg, c, d) && c.got < |d.sent| && Expected(c, d.sent[c.got])
    ensures Linked(cfg, After(cfg, c, d.sent[c.got]), d) && After(cfg, c, d.sent[c.got]).sent == c.sent
  {
    hide Granted, InOrder, Ended, CreditOf, DataLen;
    var m, ms := d.sent[c.got], d.sent[..c.got];
    TakeOne(d.sent, c.got);
    GrantedAfter(cfg, c, d, ms, m);
    InOrderAfter(cfg, c, d, ms, m, Main);
    InOrderAfter(cfg, c, d, ms, m, Extra);
    EndedAfter(cfg, c, d, ms, m);
  }

  lemma DeliverKeeps(cs: Configs, p: Pair, side: Side, t: Turn)
    requires PairOk(cs, p) && Me(p, side).got < |Peer(p, side).sent|
    ensures ResultOk(cs, With(p, side, Receive(CfgOf(cs, side), Me(p, side), Peer(p, side).sent[Me(p, side).got], t)))
  {
    hide Inv, Linked, Receive, After, Expected;
    var c, cfg, d := Me(p, side), CfgOf(cs, side), Peer(p, side);
    NextIsExpected(cs, p, side);
    ReceiveKeeps(cfg, c, d.sent[c.got], t);
    LinkedAfter(cfg, c, d);
    var c1 := Receive(cfg, c, d.sent[c.got], t).chan;
    LinkedKeeps(cfg, After(cfg, c, d.sent[c.got]), c1, d);
    MoveKeeps(cs, p, side, c1);
  }

  // -- Runs --

  lemma DoKeeps(cs: Configs, p: Pair, step: Step)
    requires PairOk(cs, p)
    ensures ResultOk(cs, Do(cs, p, step))
  {
    hide PairOk, ChannelIO, Receive, CanStart, Start, With;
    match step
    case Turns(side, t) => TurnsKeep(cs, p, side, t);
    case Deliver(side, t) => if Me(p, side).got < |Peer(p, side).sent| { DeliverKeeps(cs, p, side, t); }
    case SetUp(side, fds, extra) =>
      var c, d := Me(p, side), Peer(p, side);
      if CanStart(c, fds) && c.got <= |d.sent| && DataLen(d.sent[..c.got]) == 0 {
        SetUpKeeps(cs, p, side, fds, extra);
      }
  }

  lemma {:induction false} RunKeeps(cs: Configs, p: Pair, steps: seq<Step>)
    requires PairOk(cs, p)
    ensures ResultOk(cs, Run(cs, p, steps))
    decreases |steps|
  {
    hide PairOk, Do;
    if steps != [] {
      DoKeeps(cs, p, steps[0]);
      RunKeeps(cs, Do(cs, p, steps[0]).pair, steps[1..]);
    }
  }

  ghost predicate GoodConfigs(cs: Configs) { GoodConfig(cs.opener) && GoodConfig(cs.responder) }

  lemma InitialOk(cs: Configs, maxA: nat, maxB: nat)
    requires GoodConfigs(cs)
    ensures PairOk(cs, Initial(cs, maxA, maxB))
  {
    hide Inv;
    var p := Initial(cs, maxA, maxB);
    var open, confirm := p.opener.sent[0], p.responder.sent[0];
    NewChannelKeeps(cs.opener, open, p.opener.trans, true, 0);
    NewChannelKeeps(cs.responder, confirm, p.responder.trans, false, 1);
    SendOne([], open);
    SendOne([], confirm);
    assert [] + [open] == [open] == p.opener.sent[..1];
    assert [] + [confirm] == [confirm];
    assert p.responder.sent[..0] == [];
  }

  /** No run of two ends stops: not for an oversized packet, nor data after EOF, nor any assertion. */
  lemma RunsNeverHalt(cs: Configs, maxA: nat, maxB: nat, steps: seq<Step>)
    requires GoodConfigs(cs)
    ensures ResultOk(cs, Run(cs, Initial(cs, maxA, maxB), steps))
  {
    hide PairOk, Run;
    InitialOk(cs, maxA, maxB);
    RunKeeps(cs, Initial(cs, maxA, maxB), steps);
  }

  ghost predicate Reached(cs: Configs, p: Pair, maxA: nat, maxB: nat, steps: seq<Step>) {
    GoodConfigs(cs) && Run(cs, Initial(cs, maxA, maxB), steps) == Still(p)
  }

  /** In every run what a side may send, with its data and the other side's grants in flight, fits the window there. */
  lemma WindowNeverOverrun(cs: Configs, p: Pair, maxA: nat, maxB: nat, steps: seq<Step>, side: Side)
    requires Reached(cs, p, maxA, maxB, steps)
    ensures var x, y := Me(p, side), Peer(p, side);
            && y.got <= |x.sent| && x.got <= |y.sent| && Dropped(y, x) >= 0
            && x.trans.window + DataLen(x.sent[y.got..]) + CreditOf(y.sent[x.got..]) == y.recv.window - Dropped(y, x)
  {
    hide PairOk, Run;
    RunsNeverHalt(cs, maxA, maxB, steps);
    CreditConserved(cs, p, side);
  }

  /** In every run the bytes written and then those buffered are the first bytes the other side sent, and all
      of those delivered while the descriptor is open. */
  lemma StreamsInOrder(cs: Configs, p: Pair, maxA: nat, maxB: nat, steps: seq<Step>, side: Side, w: Which)
    requires Reached(cs, p, maxA, maxB, steps) && HasStream(Me(p, side).recv, w)
    ensures var x, y := Me(p, side), Peer(p, side);
            var s := StreamOf(x.recv, w);
            && x.got <= |y.sent|
            && s.written + s.buf <= s.accepted <= DataOf(w, y.sent)
            && (!s.failed ==> s.written + s.buf == s.accepted)
            && (Stores(CfgOf(cs, side), x, w) ==> s.written + s.buf + DataOf(w, y.sent[x.got..]) == DataOf(w, y.sent))
  {
    hide Run, LedgerKept, EndsKept, Granted, Ended, InputKept, DoneKept;
    RunsNeverHalt(cs, maxA, maxB, steps);
    var x, y := Me(p, side), Peer(p, side);
    DataSplit(w, y.sent, x.got);
    Trimmed(StreamOf(x.recv, w), FdOf(x.fds, w));
  }

  /** From end to end, in every run: what has been written at one side begins what was read at the other, and while the
      descriptor is open it is all of that but for what is buffered or in flight. */
  lemma EndToEnd(cs: Configs, p: Pair, maxA: nat, maxB: nat, steps: seq<Step>, side: Side, w: Which)
    requires Reached(cs, p, maxA, maxB, steps) && HasStream(Me(p, side).recv, w)
    ensures var x, y := Me(p, side), Peer(p, side);
            var s := StreamOf(x.recv, w);
            && s.written <= InputOf(y.input, w) && x.got <= |y.sent|
            && (Stores(CfgOf(cs, side), x, w) ==> s.written + s.buf + DataOf(w, y.sent[x.got..]) == InputOf(y.input, w))
  {
    hide Run, FlowKept, LedgerKept, EndsKept, Linked;
    RunsNeverHalt(cs, maxA, maxB, steps);
    StreamsInOrder(cs, p, maxA, maxB, steps, side, w);
    assert EndOk(cs, p, Other(side));
    var s := StreamOf(Me(p, side).recv, w);
    assert s.written <= s.written + s.buf;
  }

  lemma Trimmed(s: Stream, fd: int)
    requires StreamKept(s, fd, [])
    ensures s.written + s.buf <= s.accepted && (!s.failed ==> s.written + s.buf == s.accepted)
  {
    assert s.written + s.buf + [] == s.written + s.buf;
  }

  /** In every run the receive window is spread over the window left, the bytes done and the bytes held; and
      once the buffers are drained more than the window less a third is open, exactly when the window is 3 or more. */
  lemma WindowAccounted(cs: Configs, p: Pair, maxA: nat, maxB: nat, steps: seq<Step>, side: Side)
    requires Reached(cs, p, maxA, maxB, steps)
    ensures var r, cfg := Me(p, side).recv, CfgOf(cs, side);
            && r.window + r.donelen + Held(r) <= cfg.window
            && (!Failed(r) ==> r.window + r.donelen + Held(r) == cfg.window)
            && WindowAsserts(cfg, r)
            && (!Failed(r) && Held(r) == 0 ==>
                  r.window >= cfg.window - Extend(cfg) > 0
                      && (r.window > cfg.window - Extend(cfg) <==> cfg.window >= 3))
  {
    hide Run, Linked, LedgerKept, EndsKept;
    RunsNeverHalt(cs, maxA, maxB, steps);
  }

  /** With a window of 1 or 2 the drained window is never above the window less a third. */
  lemma SmallWindow(cs: Configs)
    requires GoodConfigs(cs) && cs.opener.window < 3
    ensures var r := Initial(cs, 0, 0).opener.recv; r.window == cs.opener.window - Extend(cs.opener) && Held(r) == 0
  {
  }

  /** Credit is never stranded: when all messages have arrived, nothing was dropped and the buffers are drained
      the sender has at least the receive window less a third. */
  lemma CreditNeverStranded(cs: Configs, p: Pair, maxA: nat, maxB: nat, steps: seq<Step>, side: Side)
    requires Reached(cs, p, maxA, maxB, steps)
    requires var x, y := Me(p, side), Peer(p, side);
             && y.got == |x.sent| && x.got == |y.sent| && Accepted(y.recv) == DataLen(x.sent)
             && !Failed(y.recv) && Held(y.recv) == 0
    ensures var w := CfgOf(cs, Other(side)).window; Me(p, side).trans.window >= w - w / 3 > 0
  {
    hide Run, PairOk;
    RunsNeverHalt(cs, maxA, maxB, steps);
    CreditConserved(cs, p, side);
    WindowAccounted(cs, p, maxA, maxB, steps, Other(side));
    var x, y := Me(p, side), Peer(p, side);
    assert x.sent[y.got..] == [] && y.sent[x.got..] == [] && x.sent[..y.got] == x.sent;
    NoMessages(Main);
    NoMessages(Extra);
  }

  /** In every run each side sends at most one EOF and one CLOSE, no data after EOF and nothing after CLOSE, and
      is removed only when CLOSE has gone both ways. */
  lemma Lifecycle(cs: Configs, p: Pair, maxA: nat, maxB: nat, steps: seq<Step>, side: Side)
    requires Reached(cs, p, maxA, maxB, steps)
    ensures var x, y := Me(p, side), Peer(p, side);
            && WellOrdered(x.sent) && x.got <= |y.sent|
            && (x.flags.sentEof <==> SaysEof(x.sent)) && (x.flags.sentClose <==> SaysClose(x.sent))
            && (x.flags.recvEof <==> SaysEof(y.sent[..x.got])) && (x.flags.recvClose <==> SaysClose(y.sent[..x.got]))
            && (!x.live ==> SaysClose(x.sent) && SaysClose(y.sent[..x.got]) && x.got == |y.sent|)
  {
    hide Run, FlowKept, LedgerKept, Granted, InOrder;
    RunsNeverHalt(cs, maxA, maxB, steps);
    var x, y := Me(p, side), Peer(p, side);
    if SaysClose(y.sent[..x.got]) {
      var i :| 0 <= i < x.got && y.sent[..x.got][i].Close?;
      assert EndOk(cs, p, Other(side));
      CloseIsLast(y.sent, i);
    }
  }
}
