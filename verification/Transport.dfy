/** A connection as a whole: two sessions run, their exchanges make keys, and the packets that each has sent cross the
    wire under the keys and the numbers that the sessions took them to have. */
module Transport {
  import opened Bits
  import opened Common
  import opened KeyDerivation
  import opened Mpint
  import opened Negotiation
  import R = Rekey
  import F = Framing
  import V = Receiving

  // -- The keys of all exchanges --

  /** One key exchange: both parties and what they have in common. */
  datatype Kex = Kex(client: Party, server: Party, hostkey: seq<U8>, g: nat, p: nat, h: Hash, size: nat,
                     macToServer: nat, macToClient: nat)

  /** The parties are each other's, and neither refuses the other's public value. */
  ghost predicate GoodKex(x: Kex) {
    && x.p > 0 && Opposite(x.client, x.server, x.g, x.p) && Printable(Seen(x.client, x.hostkey, x.server.pub, x.p))
    && Sized(x.h, x.size) && 2 <= x.server.pub <= x.p - 2 && 2 <= x.client.pub <= x.p - 2
  }

  /** What one side has made in its exchanges so far, for sending and for receiving. */
  datatype Material = Material(trans: seq<Direction>, recv: seq<Direction>)

  function ExchangeHash(x: Kex): seq<U8>
    requires x.p > 0 && Printable(Seen(x.client, x.hostkey, x.server.pub, x.p))
  {
    x.h(HashInput(Seen(x.client, x.hostkey, x.server.pub, x.p)))
  }

  /** The keys are those of exchange k, the first exchange hash being the session's identifier. */
  ghost predicate Made(kex: nat -> Kex, k: nat, toServer: Direction, toClient: Direction) {
    && GoodKex(kex(0)) && GoodKex(kex(k))
    && var x, id := kex(k), ExchangeHash(kex(0));
       var base := Encode(Seen(x.client, x.hostkey, x.server.pub, x.p).k) + ExchangeHash(x);
       && IsDirection(x.h, x.size, base, id, true, x.macToServer, toServer)
       && IsDirection(x.h, x.size, base, id, false, x.macToClient, toClient)
  }

  /** The exchanges of a session, at both sides. */
  method RunExchanges(kex: nat -> Kex, n: nat) returns (client: Material, server: Material)
    requires forall k :: GoodKex(kex(k))
    ensures |client.trans| == |client.recv| == n && client.trans == server.recv && client.recv == server.trans
    ensures forall k :: 0 <= k < n ==> Made(kex, k, client.trans[k], client.recv[k])
  {
    hide Opposite, Printable, Seen, Sized, IsDirection, Encode, HashInput;
    client, server := Material([], []), Material([], []);
    var sessionId := None;
    for k := 0 to n
      invariant |client.trans| == |client.recv| == k && client.trans == server.recv && client.recv == server.trans
      invariant sessionId == if k == 0 then None else Some(ExchangeHash(kex(0)))
      invariant forall i :: 0 <= i < k ==> Made(kex, i, client.trans[i], client.recv[i])
    {
      var x := kex(k);
      var atClient, atServer := ExchangeAgrees(x.client, x.server, x.hostkey, x.g, x.p, x.h, x.size, sessionId,
                                               x.macToServer, x.macToClient);
      client := Material(client.trans + [atClient.value.0], client.recv + [atClient.value.1]);
      server := Material(server.trans + [atServer.value.0], server.recv + [atServer.value.1]);
      if k == 0 { sessionId := Some(ExchangeHash(x)); }
    }
  }

  /** The keys of one direction: first what a session begins with, then what each exchange brings. */
  function Scheduled(first: F.Epoch, keyed: Direction -> F.Epoch, ds: seq<Direction>): F.Schedule {
    (g: nat) => if 0 < g <= |ds| then keyed(ds[g - 1]) else first
  }

  ghost predicate GoodSource(first: F.Epoch, keyed: Direction -> F.Epoch) {
    F.GoodKeys(first.keys) && forall d :: F.GoodKeys(keyed(d).keys)
  }

  lemma ScheduledIsGood(first: F.Epoch, keyed: Direction -> F.Epoch, ds: seq<Direction>)
    requires GoodSource(first, keyed)
    ensures F.GoodSchedule(Scheduled(first, keyed, ds))
  {
    hide F.GoodKeys;
  }

  // -- Packets as bytes --

  /** How payloads are written, NEWKEYS and nothing else as NEWKEYS. */
  type Coding = R.Payload -> seq<U8>

  ghost predicate GoodCoding(code: Coding) {
    forall p: R.Payload :: F.GoodPayload(code(p)) && (F.IsNewkeys(code(p)) <==> p.kind == SSH_MSG_NEWKEYS)
  }

  function Coded(code: Coding, ps: seq<R.Packet>): seq<seq<U8>> {
    seq(|ps|, i requires 0 <= i < |ps| => code(ps[i].payload))
  }

  lemma {:induction false} NewkeysAreSwitches(code: Coding, ps: seq<R.Packet>)
    requires GoodCoding(code)
    ensures V.Newkeys(Coded(code, ps)) == R.Switches(ps)
    decreases |ps|
  {
    if ps != [] {
      var n := |ps| - 1;
      NewkeysAreSwitches(code, ps[..n]);
      assert Coded(code, ps)[..n] == Coded(code, ps[..n]);
    }
  }

  /** The keys and the number of a packet's place in the stream are those that its session recorded with it. */
  lemma PlaceIsRecord(client: bool, good: nat -> bool, code: Coding, ps: seq<R.Packet>, i: nat)
    requires GoodCoding(code) && R.Orderly(client, good, ps) && i < |ps|
    ensures (V.Newkeys(Coded(code, ps)[..i]), i % SEQ_WRAP) == (ps[i].gen, ps[i].seqno)
  {
    hide R.Standing, V.Newkeys, R.Switches, GoodCoding;
    assert R.Fits(R.Standing(client, good, ps[..i]), ps[i], i);
    R.OrderlyPrefix(client, good, ps, i);
    R.OneSwitchPerExchange(client, good, ps[..i]);
    NewkeysAreSwitches(code, ps[..i]);
    assert Coded(code, ps)[..i] == Coded(code, ps[..i]);
  }

  lemma CodedAreGood(code: Coding, ps: seq<R.Packet>)
    requires GoodCoding(code)
    ensures forall i :: 0 <= i < |ps| ==> F.GoodPayload(Coded(code, ps)[i])
  {
    forall i | 0 <= i < |ps| ensures F.GoodPayload(Coded(code, ps)[i]) {
      assert Coded(code, ps)[i] == code(ps[i].payload);
    }
  }

  // -- One direction --

  /** The next packet is sent, the socket takes bytes, or the receiver reads. */
  datatype Move = Next | Write(ready: nat, writev: bool) | Receive(ready1: nat, ready2: nat)

  function Nexts(moves: seq<Move>): nat {
    if moves == [] then 0 else Nexts(moves[..|moves| - 1]) + if moves[|moves| - 1].Next? then 1 else 0
  }

  /** The moves as events, with the packets that there are. */
  method Plan(moves: seq<Move>, ps: seq<seq<U8>>) returns (events: seq<V.Event>)
    requires forall i :: 0 <= i < |ps| ==> F.GoodPayload(ps[i])
    ensures V.Payloads(events) == if Nexts(moves) < |ps| then ps[..Nexts(moves)] else ps
    ensures forall i :: 0 <= i < |events| && events[i].Send? ==> F.GoodPayload(events[i].payload)
  {
    hide V.Payloads, F.GoodPayload;
    events := [];
    var sent := 0;
    V.NoPayloads(events);
    for i := 0 to |moves|
      invariant sent == if Nexts(moves[..i]) < |ps| then Nexts(moves[..i]) else |ps|
      invariant V.Payloads(events) == ps[..sent]
      invariant forall i :: 0 <= i < |events| && events[i].Send? ==> F.GoodPayload(events[i].payload)
    {
      var e := V.Write(0, true);
      match moves[i] {
        case Next => if sent < |ps| { e := V.Send(ps[sent]); }
        case Write(ready, writev) => e := V.Write(ready, writev);
        case Receive(ready1, ready2) => e := V.Receive(ready1, ready2);
      }
      var longer := events + [e];
      V.PayloadsNext(longer, |events|);
      assert longer[..|events|] == events && longer[..|events| + 1] == longer;
      assert moves[..i + 1][..i] == moves[..i];
      if e.Send? { sent := sent + 1; }
      events := longer;
    }
    assert moves[..|moves|] == moves;
  }

  /** The two ends of one direction. */
  datatype Wire = Wire(sender: F.Sender, receiver: V.Receiver)

  /** What has arrived of the packets ps: their bytes in order, each deciphered with the keys and the number that it was
      sent with; and all of it once as many packets have been given to the sender and all bytes are across. */
  ghost predicate Arrived(code: Coding, ps: seq<R.Packet>, moves: seq<Move>, w: Wire)
    reads w.sender, w.receiver
  {
    var s, r := w.sender, w.receiver;
    && r.delivered <= Coded(code, ps) && |r.seen| == |r.delivered| && R.Deciphered(r.seen, ps)
    && (s.writequeue == [] && r.taken == |s.wire| && Nexts(moves) >= |ps| ==> r.delivered == Coded(code, ps))
  }

  /** One side's packets cross to the other, which has the same keys. */
  method Carry(client: bool, ghost good: nat -> bool, ps: seq<R.Packet>, code: Coding, schedule: F.Schedule,
               moves: seq<Move>, random: nat -> seq<U8>)
    returns (w: Wire, ok: bool)
    requires GoodCoding(code) && R.Orderly(client, good, ps) && F.GoodSchedule(schedule) && forall n :: |random(n)| == n
    ensures ok && Arrived(code, ps, moves, w) && w.sender.schedule == w.receiver.schedule == schedule
  {
    hide R.Orderly, F.GoodSchedule, F.GoodPayload, V.Payloads, V.Newkeys, Nexts, GoodCoding;
    CodedAreGood(code, ps);
    var coded := Coded(code, ps);
    var events := Plan(moves, coded);
    var s, r;
    s, r, ok := V.Transfer(schedule, events, random);
    w := Wire(s, r);
    forall i | 0 <= i < |r.seen| ensures r.seen[i] == (ps[i].gen, ps[i].seqno) {
      PlaceIsRecord(client, good, code, ps, i);
      assert V.Payloads(events)[..i] == coded[..i];
    }
  }

  // -- The whole --

  /** For tables as RunBoth takes them, any passes of the two sessions, any exchanges that neither party refuses and any
      pieces written and read: nobody exits; the keys that one side sends with are those that the other receives with,
      for as many exchanges as there have been; and every packet that arrives is the one sent at its place, deciphered
      with the generation of keys and the sequence number under which its session sent it. */
  method Connection(ct: Tables, st: Tables, passes: seq<R.Pass>, kex: nat -> Kex, first: F.Epoch,
                    toServer: Direction -> F.Epoch, toClient: Direction -> F.Epoch, code: Coding,
                    movesUp: seq<Move>, movesDown: seq<Move>, random: nat -> seq<U8>)
    returns (ok: bool, c: R.Session, s: R.Session, client: Material, server: Material, up: Wire, down: Wire)
    requires GoodTables(ct) && GoodTables(st) && Negotiable(ct, st)
    requires !FirstsMeet(ct, st) || (FirstsUsable(ct) <==> Better(ct, st) || FirstsUsable(st))
    requires forall i :: 0 <= i < |passes| ==>
               R.AllSubmittable(passes[i].keepalives) && R.AllSubmittable(passes[i].replies)
                   && R.AllSubmittable(passes[i].output)
    requires (forall k :: GoodKex(kex(k))) && GoodSource(first, toServer) && GoodSource(first, toClient)
    requires GoodCoding(code) && forall n :: |random(n)| == n
    ensures ok && R.Linked(c, s) && c.tables == ct && s.tables == st
    ensures |client.trans| == |client.recv| && client.trans == server.recv && client.recv == server.trans
    ensures forall k :: 0 <= k < |client.trans| ==> Made(kex, k, client.trans[k], client.recv[k])
    ensures R.Switches(c.sent) <= |client.trans| && R.Switches(s.sent) <= |server.trans|
    ensures Arrived(code, c.sent, movesUp, up) && Arrived(code, s.sent, movesDown, down)
    ensures up.sender.schedule == Scheduled(first, toServer, client.trans)
    ensures up.receiver.schedule == Scheduled(first, toServer, server.recv)
    ensures down.sender.schedule == Scheduled(first, toClient, server.trans)
    ensures down.receiver.schedule == Scheduled(first, toClient, client.recv)
  {
    hide GoodTables, Negotiable, FirstsMeet, FirstsUsable, Better, GoodKex, GoodSource, GoodCoding, Made, ExchangeHash,
         R.Linked, R.Switches, R.Orderly, F.GoodSchedule, Arrived, Scheduled;
    var cseen, sseen;
    ok, c, s, cseen, sseen := R.RunBoth(ct, st, passes);
    SessionFacts(c, s);
    client, server := RunExchanges(kex, if c.keys.trans < s.keys.trans then s.keys.trans else c.keys.trans);
    ScheduledIsGood(first, toServer, client.trans);
    ScheduledIsGood(first, toClient, server.trans);
    var ok1, ok2;
    up, ok1 := Carry(true, c.good, c.sent, code, Scheduled(first, toServer, client.trans), movesUp, random);
    down, ok2 := Carry(false, s.good, s.sent, code, Scheduled(first, toClient, server.trans), movesDown, random);
    ok := ok && ok1 && ok2;
  }

  lemma SessionFacts(c: R.Session, s: R.Session)
    requires R.Linked(c, s)
    ensures R.Orderly(true, c.good, c.sent) && R.Orderly(false, s.good, s.sent)
    ensures c.keys.trans == R.Switches(c.sent) && s.keys.trans == R.Switches(s.sent)
  {
    hide R.Standing, R.Switches;
    R.HeadFacts(c);
    R.HeadFacts(s);
    R.OneSwitchPerExchange(true, c.good, c.sent);
    R.OneSwitchPerExchange(false, s.good, s.sent);
  }
}
