/** Key exchange and rekeying: the state of one session, updated in place as packets are sent and
    processed, and runs of a client and a server. A packet is known by its type and a body, which for
    KEXINIT holds the lists offered; which keys and which sequence number it went under are recorded with it. */
module Rekey {
  import Algos
  import opened Common
  import opened Negotiation

  const SSH_MSG_DISCONNECT: nat := 1
  const SSH_MSG_IGNORE: nat := 2
  const SSH_MSG_UNIMPLEMENTED: nat := 3
  const SSH_MSG_DEBUG: nat := 4
  const SSH_MSG_SERVICE_REQUEST: nat := 5
  const SSH_MSG_SERVICE_ACCEPT: nat := 6
  const SSH_MSG_KEXINIT: nat := 20
  const SSH_MSG_KEXDH_INIT: nat := 30
  const SSH_MSG_KEXDH_REPLY: nat := 31
  const SSH_MSG_USERAUTH_REQUEST: nat := 50

  datatype Body = Text(text: nat) | Offered(lists: Lists)
  datatype Payload = Payload(kind: nat, body: Body)
  datatype Packet = Packet(payload: Payload, gen: nat, seqno: nat)

  /** packet_is_okay_kex. */
  predicate OkayInKex(kind: nat) {
    !(kind >= SSH_MSG_USERAUTH_REQUEST) && !(kind == SSH_MSG_SERVICE_REQUEST || kind == SSH_MSG_SERVICE_ACCEPT)
    && !(kind == SSH_MSG_KEXINIT)
  }

  /** Messages of the layers above, and those that may come at any time. */
  predicate IsApp(kind: nat) {
    kind >= SSH_MSG_USERAUTH_REQUEST || kind == SSH_MSG_SERVICE_REQUEST || kind == SSH_MSG_SERVICE_ACCEPT
  }

  predicate IsMisc(kind: nat) { kind == SSH_MSG_IGNORE || kind == SSH_MSG_UNIMPLEMENTED || kind == SSH_MSG_DEBUG }

  // -- The order of one side's packets --

  /** The points of an exchange: KEXINIT, the client's guessed KEXDH_INIT, its real one if the guess was
      wrong, the server's reply, and NEWKEYS. */
  datatype Point = Init | Guess | Real | Reply | Keys
  /** The next point of a side, in which exchange. */
  datatype Stage = Stage(exch: nat, at: Point)

  function KindAt(at: Point): nat {
    match at
    case Init => SSH_MSG_KEXINIT
    case Guess => SSH_MSG_KEXDH_INIT
    case Real => SSH_MSG_KEXDH_INIT
    case Reply => SSH_MSG_KEXDH_REPLY
    case Keys => SSH_MSG_NEWKEYS
  }

  /** What follows a point, for the client and for the server; good(k) says whether the guess of exchange k is right. */
  function After(client: bool, good: nat -> bool, s: Stage): Stage {
    match s.at
    case Init => s.(at := if client then Guess else Reply)
    case Guess => s.(at := if good(s.exch) then Keys else Real)
    case Real => s.(at := Keys)
    case Reply => s.(at := Keys)
    case Keys => Stage(s.exch + 1, Init)
  }

  /** A message of the exchange is the next to come. */
  predicate Due(s: Stage) { s.at != Init || s.exch == 0 }

  predicate IsKex(kind: nat) { !IsApp(kind) && !IsMisc(kind) }

  /** Where a side stands after the packets it has sent. */
  function Standing(client: bool, good: nat -> bool, ps: seq<Packet>): Stage {
    if ps == [] then Stage(0, Init)
    else
      var before := Standing(client, good, ps[..|ps| - 1]);
      if IsKex(ps[|ps| - 1].payload.kind) then After(client, good, before) else before
  }

  /** A packet that may be sent at a stage: the next one of the exchange, or one that goes at any time, or
      one of the layers above outside of an exchange; and under the keys and number of that moment. */
  predicate Suits(s: Stage, kind: nat, gen: nat) {
    (IsKex(kind) ==> kind == KindAt(s.at)) && (IsApp(kind) ==> s.at == Init && s.exch > 0) && gen == s.exch
  }

  predicate Fits(s: Stage, p: Packet, n: nat) { Suits(s, p.payload.kind, p.gen) && p.seqno == n % SEQ_WRAP }

  ghost predicate Orderly(client: bool, good: nat -> bool, ps: seq<Packet>) {
    forall i :: 0 <= i < |ps| ==> Fits(Standing(client, good, ps[..i]), ps[i], i)
  }

  /** Every KEXINIT offers the same lists. */
  ghost predicate Offering(l: Lists, ps: seq<Packet>) {
    forall i :: 0 <= i < |ps| ==> Offers(l, ps[i].payload)
  }

  ghost predicate Offers(l: Lists, p: Payload) { p.kind == SSH_MSG_KEXINIT ==> p.body == Offered(l) }

  /** The payloads of the layers above, in order. */
  function Apps(ps: seq<Packet>): seq<Payload> {
    if ps == [] then []
    else Apps(ps[..|ps| - 1]) + if IsApp(ps[|ps| - 1].payload.kind) then [ps[|ps| - 1].payload] else []
  }

  lemma Appended(client: bool, good: nat -> bool, ps: seq<Packet>, p: Packet)
    ensures var s := Standing(client, good, ps);
            Standing(client, good, ps + [p]) == if IsKex(p.payload.kind) then After(client, good, s) else s
    ensures Apps(ps + [p]) == Apps(ps) + if IsApp(p.payload.kind) then [p.payload] else []
    ensures Orderly(client, good, ps) && Fits(Standing(client, good, ps), p, |ps|) ==> Orderly(client, good, ps + [p])
  {
    var qs := ps + [p];
    assert qs[..|qs| - 1] == ps;
    assert forall i :: 0 <= i <= |ps| ==> qs[..i] == ps[..i];
  }

  // -- One session --

  datatype KexState = KexState(sentkexinit: bool, recvkexinit: bool, sentnewkeys: bool, recvnewkeys: bool,
                               donefirstkex: bool, ourFirstFollowsMatches: bool)
  datatype Gens = Gens(trans: nat, recv: nat)
  /** Keys that an exchange is making: nothing yet, or a generation and which directions still have to switch to it. */
  datatype NewKeys = NoKeys | Unset | Made(gen: nat, recvValid: bool, transValid: bool)

  /** The state of an exchange before it begins, after both KEXINITs, and after our NEWKEYS. */
  predicate Begun(k: KexState, sent: bool, recv: bool, keys: bool) {
    k.sentkexinit == sent && k.recvkexinit == recv && k.sentnewkeys == keys && !k.recvnewkeys
  }

  class Session {
    const client: bool
    /** The tables, which do not change, and the lists that send_msg_kexinit writes from them. */
    const tables: Tables
    const offer: Lists
    /** The verdicts on the guess that read_kex_algos will come to, exchange by exchange. */
    ghost const good: nat -> bool
    var kex: KexState
    var dataallowed: bool
    var requirenext: nat
    var ignorenext: bool
    var lastpacket: nat
    /** cli_ses.kex_state is KEXDH_INIT_SENT. */
    var kexdhInitSent: bool
    /** ses.keys and ses.newkeys, by the generation of the keys. */
    var keys: Gens
    var newkeys: NewKeys
    var transseq: nat
    var recvseq: nat
    var replyQueue: seq<Payload>
    /** The packets put on the write queue, and how many of the other side's have been taken. */
    var sent: seq<Packet>
    var got: nat
    /** The payloads of the layers above that were given to encrypt_packet, the other side's stage, and what became of
        the KEXDH_INITs that came in turn. */
    ghost var submitted: seq<Payload>
    ghost var theirs: Stage
    ghost var inits: seq<Verdict>

    /** common_session_init. */
    constructor (client: bool, tables: Tables, ghost good: nat -> bool)
      requires GoodTables(tables)
      ensures this.client == client && this.tables == tables && this.offer == Offer(tables) && this.good == good
      ensures sent == [] && got == 0 && theirs == Stage(0, Init) && inits == []
      ensures Sending() && submitted == [] && replyQueue == [] && dataallowed && requirenext == SSH_MSG_KEXINIT
      ensures !ignorenext
      ensures kex == KexState(false, false, false, false, false, false) && newkeys == NoKeys && keys == Gens(0, 0)
      ensures recvseq == 0
      ensures lastpacket == 0 && !kexdhInitSent
    {
      var lists := PutAlgos(tables);
      this.client, this.tables, this.offer, this.good := client, tables, lists, good;
      kex := KexState(false, false, false, false, false, false);
      dataallowed, requirenext, ignorenext, lastpacket, kexdhInitSent := true, SSH_MSG_KEXINIT, false, 0, false;
      keys, newkeys := Gens(0, 0), NoKeys;
      transseq, recvseq, replyQueue, sent, got := 0, 0, [], [], 0;
      submitted, theirs, inits := [], Stage(0, Init), [];
    }

    ghost function Ours(): Stage
      reads this`sent
    {
      Standing(client, good, sent)
    }

    /** The packets sent are in order and numbered; with those held back they are all that was submitted. */
    ghost predicate Sending()
      reads this`sent, this`submitted, this`replyQueue, this`transseq
    {
      && Orderly(client, good, sent) && Offering(offer, sent) && transseq == |sent| % SEQ_WRAP
      && Apps(sent) + replyQueue == submitted
      && forall i :: 0 <= i < |replyQueue| ==> IsApp(replyQueue[i].kind)
    }

    predicate Goes(kind: nat)
      reads this`dataallowed
    {
      dataallowed || OkayInKex(kind)
    }

    /** Puts a packet on the write queue under the present keys and sequence number. */
    method Transmit(p: Payload, ghost rest: seq<Payload>)
      requires Orderly(client, good, sent) && Offering(offer, sent) && transseq == |sent| % SEQ_WRAP
      requires Suits(Ours(), p.kind, keys.trans) && Offers(offer, p)
      requires Apps(sent) + (if IsApp(p.kind) then [p] else []) + rest == submitted
      modifies this`sent, this`transseq
      ensures Orderly(client, good, sent) && Offering(offer, sent) && transseq == |sent| % SEQ_WRAP
      ensures sent == old(sent) + [Packet(p, keys.trans, old(transseq))]
      ensures Ours() == if IsKex(p.kind) then After(client, good, old(Ours())) else old(Ours())
      ensures Apps(sent) + rest == submitted
    {
      hide Standing, Orderly, Apps, Suits;
      Appended(client, good, sent, Packet(p, keys.trans, transseq));
      sent := sent + [Packet(p, keys.trans, transseq)];
      transseq := (transseq + 1) % SEQ_WRAP;
    }

    /** encrypt_packet: what may not go during an exchange is held back. */
    method EncryptPacket(p: Payload)
      requires Sending() && (Goes(p.kind) ==> Suits(Ours(), p.kind, keys.trans)) && Offers(offer, p)
      requires !Goes(p.kind) ==> IsApp(p.kind)
      requires Goes(p.kind) && IsApp(p.kind) ==> replyQueue == []
      modifies this`sent, this`transseq, this`replyQueue, this`submitted
      ensures Sending() && submitted == old(submitted) + if IsApp(p.kind) then [p] else []
      ensures replyQueue == old(replyQueue) + if Goes(p.kind) then [] else [p]
      ensures sent == old(sent) + if Goes(p.kind) then [Packet(p, keys.trans, old(transseq))] else []
      ensures Ours() == if IsKex(p.kind) then After(client, good, old(Ours())) else old(Ours())
    {
      hide Standing, Orderly, Apps, Suits, Offering, Offers;
      if IsApp(p.kind) { submitted := submitted + [p]; }
      if !dataallowed && !OkayInKex(p.kind) {
        replyQueue := replyQueue + [p];
        return;
      }
      Transmit(p, replyQueue);
    }

    // -- The phases of an exchange --

    /** No exchange is going on; the next one is the other side's next. */
    ghost predicate Idle()
      reads this
    {
      && Ours() == Stage(theirs.exch, Init) && theirs.at == Init && theirs.exch > 0
      && Begun(kex, false, false, false) && !kex.ourFirstFollowsMatches && newkeys == NoKeys && dataallowed
    }

    /** We have sent KEXINIT, and the client its guess. */
    ghost predicate Opened()
      reads this
    {
      && Ours() == OpenedStage(client, good, theirs.exch) && theirs.at == Init
      && Begun(kex, true, false, false) && !kex.ourFirstFollowsMatches && newkeys == Unset && !dataallowed
    }

    /** Both KEXINITs are there and NEWKEYS is still to be sent. */
    ghost predicate Working()
      reads this
    {
      && Begun(kex, true, true, false) && newkeys == Unset && !dataallowed
      && if client then
           && theirs.at == Reply && kex.ourFirstFollowsMatches == good(theirs.exch)
           && if kexdhInitSent then Ours() == Stage(theirs.exch, Keys)
              else Ours() == OpenedStage(true, good, theirs.exch) && lastpacket == SSH_MSG_KEXINIT
         else
           && Ours() == Stage(theirs.exch, Reply) && (theirs.at == Guess || (theirs.at == Real && !good(theirs.exch)))
    }

    /** NEWKEYS has been sent and theirs is to come. */
    ghost predicate Closing()
      reads this
    {
      && Ours() == Stage(theirs.exch + 1, Init) && theirs.at == Keys
      && Begun(kex, true, true, true) && newkeys == Made(theirs.exch + 1, true, false) && dataallowed
    }

    /** What the server made of the KEXDH_INITs is what it had to make of them. */
    ghost predicate Counted()
      reads this`theirs, this`inits
    {
      !client ==> inits == TakenBy(good, theirs)
    }

    ghost predicate Phased()
      reads this
    {
      && Sending() && keys == Gens(Ours().exch, theirs.exch) && recvseq == got % SEQ_WRAP && Counted()
      && (Idle() || Opened() || Working() || Closing())
    }

    /** In a phase, requiring and ignoring what goes with it. */
    ghost predicate Valid()
      reads this
    {
      && Phased()
      && requirenext == (if theirs.at == Init && theirs.exch > 0 then 0 else KindAt(theirs.at))
      && ignorenext == (!client && theirs.at == Guess && !good(theirs.exch))
    }

    /** At the head of session_loop nothing is held back unless an exchange is going on, and the client has
        answered the last KEXINIT. */
    ghost predicate AtHead()
      reads this
    {
      && Valid() && (dataallowed ==> replyQueue == [])
      && (client ==> (kexdhInitSent <==> Working()) && (lastpacket == SSH_MSG_KEXINIT ==> kexdhInitSent))
    }

    // -- Messages of the exchange --

    method SendMsgKexdhInit()
      requires Sending() && Ours().exch == keys.trans && (Ours().at == Guess || Ours().at == Real)
      modifies this`sent, this`transseq, this`replyQueue, this`submitted
      ensures Sending() && Ours() == After(client, good, old(Ours())) && replyQueue == old(replyQueue)
      ensures submitted == old(submitted)
      ensures sent == old(sent) + [Packet(Payload(SSH_MSG_KEXDH_INIT, Text(0)), keys.trans, old(transseq))]
    {
      hide Ours, Sending;
      EncryptPacket(Payload(SSH_MSG_KEXDH_INIT, Text(0)));
    }

    /** send_msg_kexinit, with the client's guess. */
    method SendMsgKexinit()
      requires Sending() && dataallowed && Ours() == Stage(keys.trans, Init)
      modifies this`sent, this`transseq, this`replyQueue, this`submitted, this`dataallowed, this`kex, this`newkeys
      ensures Sending() && Ours() == OpenedStage(client, good, keys.trans) && !dataallowed
      ensures kex == old(kex).(sentkexinit := true) && newkeys == Unset
      ensures replyQueue == old(replyQueue) && submitted == old(submitted) && old(sent) <= sent
      ensures Kinds(sent[|old(sent)|..]) == [SSH_MSG_KEXINIT] + if client then [SSH_MSG_KEXDH_INIT] else []
    {
      hide Ours, Sending;
      EncryptPacket(Payload(SSH_MSG_KEXINIT, Offered(offer)));
      dataallowed := false;
      kex := kex.(sentkexinit := true);
      newkeys := Unset;
      if client { SendMsgKexdhInit(); }
    }

    /** switch_keys; false is the exit on an unexpected NEWKEYS. */
    method SwitchKeys() returns (ok: bool)
      requires kex.sentkexinit && kex.recvkexinit ==> newkeys.Made?
      modifies this`keys, this`newkeys, this`kex
      ensures ok == (old(kex).sentkexinit && old(kex).recvkexinit)
      ensures !ok ==> unchanged(this)
      ensures ok ==>
                var was, made := old(keys), old(newkeys);
                && keys.trans == (if old(kex).sentnewkeys && made.transValid then made.gen else was.trans)
                && keys.recv == (if old(kex).recvnewkeys && made.recvValid then made.gen else was.recv)
      ensures ok && old(kex).sentnewkeys && old(kex).recvnewkeys ==>
                Begun(kex, false, false, false) && !kex.ourFirstFollowsMatches && newkeys == NoKeys
      ensures ok && !(old(kex).sentnewkeys && old(kex).recvnewkeys) ==>
                kex == old(kex) && newkeys == old(newkeys).(recvValid := old(newkeys).recvValid && !kex.recvnewkeys,
                                                            transValid := old(newkeys).transValid && !kex.sentnewkeys)
    {
      if !(kex.sentkexinit && kex.recvkexinit) { return false; }
      if kex.recvnewkeys && newkeys.recvValid {
        keys := keys.(recv := newkeys.gen);
        newkeys := newkeys.(recvValid := false);
      }
      if kex.sentnewkeys && newkeys.transValid {
        keys := keys.(trans := newkeys.gen);
        newkeys := newkeys.(transValid := false);
      }
      if kex.sentnewkeys && kex.recvnewkeys {
        newkeys := NoKeys;
        kex := KexState(false, false, false, false, kex.donefirstkex, false);
      }
      ok := true;
    }

    /** send_msg_newkeys: NEWKEYS goes under the old keys, and what follows under the new ones. */
    method SendMsgNewkeys()
      requires Sending() && Ours() == Stage(keys.trans, Keys) && Begun(kex, true, true, false) && newkeys == Unset
      modifies this`sent, this`transseq, this`replyQueue, this`submitted, this`kex, this`dataallowed, this`newkeys,
               this`keys
      ensures Sending() && Ours() == Stage(keys.trans, Init) && keys == Gens(old(keys).trans + 1, old(keys).recv)
      ensures Begun(kex, true, true, true) && newkeys == Made(keys.trans, true, false) && dataallowed
      ensures replyQueue == old(replyQueue) && submitted == old(submitted)
      ensures sent == old(sent) + [Packet(Payload(SSH_MSG_NEWKEYS, Text(0)), old(keys).trans, old(transseq))]
    {
      hide Ours, Sending;
      EncryptPacket(Payload(SSH_MSG_NEWKEYS, Text(0)));
      kex := kex.(sentnewkeys := true, donefirstkex := true);
      dataallowed := true;
      newkeys := Made(keys.trans + 1, true, true);
      var ok := SwitchKeys();
    }

    /** A session begins by sending KEXINIT. */
    method Begin()
      requires Sending() && sent == [] && got == 0 && theirs == Stage(0, Init) && dataallowed
      requires requirenext == SSH_MSG_KEXINIT && !ignorenext
      requires kex == KexState(false, false, false, false, false, false) && newkeys == NoKeys && keys == Gens(0, 0)
      requires recvseq == 0
      requires lastpacket == 0 && !kexdhInitSent && inits == []
      modifies this`sent, this`transseq, this`replyQueue, this`submitted, this`dataallowed, this`kex, this`newkeys
      ensures AtHead() && Kinds(sent) == [SSH_MSG_KEXINIT] + if client then [SSH_MSG_KEXDH_INIT] else []
    {
      hide Sending;
      SendMsgKexinit();
      assert sent[0..] == sent;
    }

    // -- Handlers, after process_packet has passed the packet on --

    /** send_msg_kexinit outside of an exchange opens one. */
    method OpenExchange()
      requires Phased() && !kex.sentkexinit
      modifies this`sent, this`transseq, this`replyQueue, this`submitted, this`dataallowed, this`kex, this`newkeys
      ensures Phased() && Opened() && old(sent) <= sent && Frame(old(replyQueue), old(submitted))
    {
      hide Ours, Sending;
      SendMsgKexinit();
    }

    /** A KEXINIT from which algorithms can be agreed on. */
    ghost predicate Acceptable(body: Body) { body.Offered? && Understood(!client, tables, body.lists).Some? }

    /** The verdict on a KEXINIT is the one foretold for this exchange. */
    ghost predicate Foretold(p: Payload)
      reads this`theirs
    {
      p.kind == SSH_MSG_KEXINIT && Acceptable(p.body) ==> Judge(!client, tables, p.body.lists) == good(theirs.exch)
    }

    /** The rest of recv_msg_kexinit once our own KEXINIT is out; allgood is the outcome of read_kex_algos. */
    method Require(allgood: bool)
      requires Phased() && Opened() && allgood == good(theirs.exch) && !ignorenext && lastpacket == SSH_MSG_KEXINIT
      requires client ==> !kexdhInitSent
      modifies this`kex, this`requirenext, this`ignorenext, this`theirs
      ensures Valid() && Working() && theirs == After(!client, good, old(theirs))
    {
      hide Ours, Sending, Idle, Closing, TakenBy;
      TakenNext(good, theirs);
      if client {
        if allgood { kex := kex.(ourFirstFollowsMatches := true); }
        requirenext := SSH_MSG_KEXDH_REPLY;
      } else {
        ignorenext := !allgood;
        requirenext := SSH_MSG_KEXDH_INIT;
      }
      kex := kex.(recvkexinit := true);
      theirs := After(!client, good, theirs);
    }

    /** recv_msg_kexinit; false is the exit for want of an algorithm. */
    method RecvMsgKexinit(body: Body) returns (ok: bool)
      requires Phased() && theirs.at == Init && Foretold(Payload(SSH_MSG_KEXINIT, body)) && !ignorenext
      requires lastpacket == SSH_MSG_KEXINIT && (client ==> !kexdhInitSent)
      modifies this`sent, this`transseq, this`replyQueue, this`submitted, this`dataallowed, this`kex, this`newkeys,
               this`requirenext, this`ignorenext, this`theirs
      ensures ok == Acceptable(body)
      ensures ok ==> Valid() && Working() && theirs == After(!client, good, old(theirs)) && old(sent) <= sent
      ensures ok ==> Frame(old(replyQueue), old(submitted))
    {
      hide Ours, Sending, Judge, TakenBy, Understood, Algos.Pick;
      if !kex.sentkexinit { OpenExchange(); }
      if body.Text? { return false; }
      var outcome := ReadKexAlgos(!client, tables, body.lists);
      if outcome.None? { return false; }
      Require(outcome.value.allgood);
      ok := true;
    }

    /** send_msg_kexdh_reply and send_msg_newkeys. */
    method Answer()
      requires Sending() && Ours() == Stage(keys.trans, Reply) && Begun(kex, true, true, false) && newkeys == Unset
      requires !client
      modifies this`sent, this`transseq, this`replyQueue, this`submitted, this`kex, this`dataallowed, this`newkeys,
               this`keys
      ensures Sending() && Ours() == Stage(keys.trans, Init) && keys == Gens(old(keys).trans + 1, old(keys).recv)
      ensures Begun(kex, true, true, true) && newkeys == Made(keys.trans, true, false) && dataallowed
      ensures replyQueue == old(replyQueue) && submitted == old(submitted) && old(sent) <= sent
    {
      hide Ours, Sending;
      EncryptPacket(Payload(SSH_MSG_KEXDH_REPLY, Text(0)));
      SendMsgNewkeys();
    }

    /** The server's recv_msg_kexdh_init: reply, then NEWKEYS. */
    method RecvMsgKexdhInit() returns (ok: bool)
      requires Phased() && !client && !ignorenext
      requires kex.recvkexinit <==> Working()
      requires Working() ==> (theirs.at == Guess ==> good(theirs.exch))
      modifies this`sent, this`transseq, this`replyQueue, this`submitted, this`dataallowed, this`kex, this`newkeys,
               this`requirenext, this`theirs, this`keys, this`inits
      ensures ok == old(kex).recvkexinit
      ensures ok ==> Valid() && theirs == After(true, good, old(theirs))
      ensures ok ==> old(sent) <= sent && Frame(old(replyQueue), old(submitted))
      ensures ok ==> keys.recv == old(keys).recv
    {
      hide Ours, Sending, Idle, Opened, TakenBy;
      if !kex.recvkexinit { return false; }
      TakenNext(good, theirs);
      inits := inits + [Handled];
      Answer();
      requirenext := SSH_MSG_NEWKEYS;
      theirs := After(true, good, theirs);
      ok := true;
    }

    /** The client's recv_msg_kexdh_reply: NEWKEYS. */
    method RecvMsgKexdhReply() returns (ok: bool)
      requires Phased() && client && !ignorenext && (kexdhInitSent ==> Working())
      modifies this`sent, this`transseq, this`replyQueue, this`submitted, this`dataallowed, this`kex, this`newkeys,
               this`requirenext, this`theirs, this`keys
      ensures ok == old(kexdhInitSent)
      ensures ok ==> Valid() && theirs == After(false, good, old(theirs))
      ensures ok ==> old(sent) <= sent && Frame(old(replyQueue), old(submitted))
      ensures ok ==> keys.recv == old(keys).recv
    {
      hide Ours, Sending;
      if !kexdhInitSent { return false; }
      SendMsgNewkeys();
      requirenext := SSH_MSG_NEWKEYS;
      theirs := After(false, good, theirs);
      ok := true;
    }

    method RecvMsgNewkeys() returns (ok: bool)
      requires Phased() && !ignorenext && !Working() && requirenext == 0
      modifies this`kex, this`newkeys, this`keys, this`theirs
      ensures ok == old(Closing())
      ensures ok ==> Valid() && theirs == After(!client, good, old(theirs))
      ensures ok ==> sent == old(sent) && Frame(old(replyQueue), old(submitted))
      ensures ok ==> keys == Gens(old(keys).trans, old(keys).recv + 1)
    {
      hide Ours, Sending, TakenBy;
      TakenNext(good, theirs);
      kex := kex.(recvnewkeys := true);
      ok := SwitchKeys();
      if ok { theirs := After(!client, good, theirs); }
    }

    // -- The layers above, and process_packet --

    /** The layers above hand on packets. */
    method Submit(ps: seq<Payload>)
      requires Valid() && (dataallowed ==> replyQueue == []) && AllSubmittable(ps)
      modifies this`sent, this`transseq, this`replyQueue, this`submitted
      ensures Valid() && (dataallowed ==> replyQueue == []) && old(sent) <= sent && Ours() == old(Ours())
      ensures submitted == old(submitted) + OnlyApps(ps)
    {
      hide Ours, Sending, OnlyApps;
      OnlyAppsOf(ps, 0);
      for i := 0 to |ps|
        invariant Valid() && (dataallowed ==> replyQueue == []) && old(sent) <= sent && Ours() == old(Ours())
        invariant submitted == old(submitted) + OnlyApps(ps[..i])
      {
        OnlyAppsOf(ps, i);
        EncryptPacket(ps[i]);
      }
      assert ps[..|ps|] == ps;
    }

    /** What process_packet decides before any handler. */
    method Gate(kind: nat) returns (v: Verdict)
      modifies this`lastpacket, this`ignorenext, this`requirenext
      ensures lastpacket == kind
      ensures v == GateOf(old(requirenext), old(ignorenext), kind)
      ensures ignorenext == (old(ignorenext) && v != Ignored)
      ensures requirenext == (if v == Handled then 0 else old(requirenext))
    {
      lastpacket := kind;
      if kind == SSH_MSG_IGNORE || kind == SSH_MSG_DEBUG || kind == SSH_MSG_UNIMPLEMENTED { return Dropped; }
      if kind == SSH_MSG_DISCONNECT { return Exit; }
      if requirenext != 0 && requirenext != kind {
        if 1 <= kind <= 49 && kind !in {SSH_MSG_SERVICE_REQUEST, SSH_MSG_SERVICE_ACCEPT, SSH_MSG_KEXINIT} {
          return Unimplemented;
        }
        return Exit;
      }
      if ignorenext {
        ignorenext := false;
        return Ignored;
      }
      if requirenext != 0 && requirenext == kind { requirenext := 0; }
      v := Handled;
    }

    /** After a packet has been processed the client may still owe its KEXDH_INIT or have to forget it. */
    ghost predicate Processed()
      reads this
    {
      && Valid()
      && (client ==> (kexdhInitSent ==> Working() || Closing()) && (lastpacket == SSH_MSG_KEXINIT ==> Working()))
    }

    /** The message of the exchange that this side has a handler for, besides KEXINIT and NEWKEYS. */
    function OwnKind(): nat { if client then SSH_MSG_KEXDH_REPLY else SSH_MSG_KEXDH_INIT }

    /** The packets that end a session: DISCONNECT; a KEXINIT with which no algorithm is in common; while a message of
        the exchange is due, another KEXINIT and all of the layers above; and else those messages that only an exchange
        has. */
    ghost predicate Refuses(p: Payload)
      reads this`theirs
    {
      || p.kind == SSH_MSG_DISCONNECT || (p.kind == SSH_MSG_KEXINIT && theirs.at == Init && !Acceptable(p.body))
      || if Due(theirs) then p.kind != KindAt(theirs.at) && (p.kind in {0, 5, 6, 20} || p.kind >= 50)
         else p.kind == SSH_MSG_NEWKEYS || p.kind == OwnKind()
    }

    /** The packets that are answered as unimplemented. */
    ghost predicate Unknown(kind: nat)
      reads this`theirs
    {
      if Due(theirs) then kind < 50 && kind !in {0, 1, 2, 3, 4, 5, 6, 20, KindAt(theirs.at)}
      else kind < 50 && kind !in {1, 2, 3, 4, 5, 6, 20, 21, OwnKind()}
    }

    /** What an answer as unimplemented adds. */
    ghost predicate Answered(was: seq<Packet>, seqno: nat)
      reads this`sent, this`keys
    {
      sent == was + [Packet(Payload(SSH_MSG_UNIMPLEMENTED, Text(0)), keys.trans, seqno)]
    }

    /** The handlers. */
    method Dispatch(p: Payload, replies: seq<Payload>) returns (ok: bool)
      requires Phased() && lastpacket == p.kind && !ignorenext && requirenext == 0 && !IsMisc(p.kind)
      requires p.kind != SSH_MSG_DISCONNECT
      requires dataallowed ==> replyQueue == []
      requires client ==> (kexdhInitSent <==> Working())
      requires (theirs.at == Init && theirs.exch > 0) ||
               (p.kind == KindAt(theirs.at) && (!client && theirs.at == Guess ==> good(theirs.exch)))
      requires Foretold(p) && AllSubmittable(replies)
      modifies this`sent, this`transseq, this`replyQueue, this`submitted, this`dataallowed, this`kex, this`newkeys,
               this`requirenext, this`ignorenext, this`theirs, this`keys, this`inits
      ensures ok ==> Processed() && old(sent) <= sent && theirs == Advance(!client, good, old(theirs), p.kind)
      ensures ok ==> submitted == old(submitted) + if IsApp(p.kind) then OnlyApps(replies) else []
      ensures ok <==> !old(Refuses(p))
      ensures ok && old(Unknown(p.kind)) ==> Answered(old(sent), old(transseq))
    {
      hide Ours, Sending, OnlyApps, TakenBy, Judge, Understood;
      if p.kind == SSH_MSG_KEXINIT {
        ok := RecvMsgKexinit(p.body);
      } else if p.kind == SSH_MSG_KEXDH_INIT && !client {
        ok := RecvMsgKexdhInit();
      } else if p.kind == SSH_MSG_KEXDH_REPLY && client {
        ok := RecvMsgKexdhReply();
      } else if p.kind == SSH_MSG_NEWKEYS {
        ok := RecvMsgNewkeys();
      } else if IsApp(p.kind) {
        Submit(replies);
        ok := true;
      } else {
        EncryptPacket(Payload(SSH_MSG_UNIMPLEMENTED, Text(0)));
        ok := true;
      }
    }

    /** A wrong guess of the client has been ignored. */
    ghost method PassOver()
      requires Phased() && !client && theirs.at == Guess && !good(theirs.exch) && requirenext == SSH_MSG_KEXDH_INIT
      requires !ignorenext
      modifies this`theirs, this`inits
      ensures Valid() && theirs == After(true, good, old(theirs))
    {
      hide Ours, Sending, TakenBy, Begun;
      TakenNext(good, theirs);
      inits := inits + [Ignored];
      theirs := After(true, good, theirs);
    }

    /** process_packet. For any packet the session exits or stays in good order, and it does not exit on one in turn. */
    method ProcessPacket(p: Payload, replies: seq<Payload>) returns (ok: bool)
      requires AtHead() && Foretold(p) && AllSubmittable(replies)
      modifies this`sent, this`transseq, this`replyQueue, this`submitted, this`dataallowed, this`kex, this`newkeys,
               this`requirenext, this`ignorenext, this`theirs, this`keys, this`lastpacket, this`inits
      ensures ok ==> Processed() && old(sent) <= sent && theirs == Advance(!client, good, old(theirs), p.kind)
      ensures ok ==> submitted == old(submitted) + if IsApp(p.kind) then OnlyApps(replies) else []
      ensures ok <==> !old(Refuses(p))
      ensures ok <== Suits(old(theirs), p.kind, old(theirs).exch) && (p.kind == SSH_MSG_KEXINIT ==> Acceptable(p.body))
      ensures ok && p.kind == SSH_MSG_KEXINIT ==> Acceptable(p.body)
      ensures old(Unknown(p.kind)) ==> Answered(old(sent), old(transseq))
    {
      hide Ours, Sending, OnlyApps, TakenBy, Acceptable, Foretold, Begun;
      var v := Gate(p.kind);
      if v == Handled {
        ok := Dispatch(p, replies);
        return;
      }
      if v == Unimplemented { EncryptPacket(Payload(SSH_MSG_UNIMPLEMENTED, Text(0))); }
      if v == Ignored { PassOver(); }
      ok := v != Exit;
    }

    // -- session_loop --

    method FlushOne()
      requires Sending() && replyQueue != [] && Ours() == Stage(keys.trans, Init) && keys.trans > 0
      modifies this`sent, this`transseq, this`replyQueue
      ensures Sending() && replyQueue == old(replyQueue)[1..] && old(sent) <= sent && Ours() == old(Ours())
    {
      hide Standing, Orderly, Apps;
      var p := replyQueue[0];
      var rest := replyQueue[1..];
      assert Apps(sent) + [p] + rest == Apps(sent) + replyQueue;
      Transmit(p, rest);
      replyQueue := rest;
    }

    /** maybe_flush_reply_queue. */
    method MaybeFlushReplyQueue()
      requires Processed()
      modifies this`sent, this`transseq, this`replyQueue
      ensures Processed() && (dataallowed ==> replyQueue == []) && old(sent) <= sent && Ours() == old(Ours())
    {
      hide Ours, Sending;
      if !dataallowed { return; }
      while replyQueue != []
        invariant Sending() && old(sent) <= sent && Ours() == old(Ours())
        decreases |replyQueue|
      {
        FlushOne();
      }
    }

    /** The key exchange part of cli_sessionloop. */
    method CliSessionloop()
      requires Processed() && client && (dataallowed ==> replyQueue == [])
      modifies this`sent, this`transseq, this`replyQueue, this`submitted, this`kexdhInitSent
      ensures AtHead() && old(sent) <= sent && submitted == old(submitted)
    {
      hide Sending;
      if lastpacket == SSH_MSG_KEXINIT && !kexdhInitSent {
        if !kex.ourFirstFollowsMatches { SendMsgKexdhInit(); }
        kexdhInitSent := true;
        return;
      }
      if kexdhInitSent && kex.sentnewkeys { kexdhInitSent := false; }
    }

    /** decrypt_packet counts the packet, which was deciphered under keys.recv and checked against recvseq. */
    method DecryptPacket()
      requires AtHead()
      modifies this`recvseq, this`got
      ensures AtHead() && got == old(got) + 1
    {
      hide Ours, Sending;
      recvseq := (recvseq + 1) % SEQ_WRAP;
      got := got + 1;
    }

    /** checktimeouts: rekeying when it is due and no exchange is going on, and keepalives. */
    method CheckTimeouts(rekey: bool, keepalives: seq<Payload>)
      requires AtHead() && AllSubmittable(keepalives)
      modifies this`sent, this`transseq, this`replyQueue, this`submitted, this`dataallowed, this`kex, this`newkeys
      ensures AtHead() && old(sent) <= sent && submitted == old(submitted) + OnlyApps(keepalives)
    {
      hide Ours, Sending, OnlyApps;
      if rekey && !kex.sentkexinit { OpenExchange(); }
      Submit(keepalives);
    }

    /** What follows process_packet: the held-back replies, the loop handler and the channels. */
    method RestOfLoop(output: seq<Payload>)
      requires Processed() && AllSubmittable(output)
      modifies this`sent, this`transseq, this`replyQueue, this`submitted, this`kexdhInitSent
      ensures AtHead() && old(sent) <= sent && submitted == old(submitted) + OnlyApps(output)
    {
      hide Ours, Sending, OnlyApps;
      MaybeFlushReplyQueue();
      if client { CliSessionloop(); }
      Submit(output);
    }

    /** One pass of session_loop, with or without a packet from the other side. */
    method LoopOnce(rekey: bool, keepalives: seq<Payload>, packet: Option<Packet>, replies: seq<Payload>,
        output: seq<Payload>)
      returns (ok: bool)
      requires AtHead() && AllSubmittable(keepalives) && AllSubmittable(replies) && AllSubmittable(output)
      requires packet.Some? ==> Foretold(packet.value.payload)
      modifies this
      ensures ok ==> AtHead() && old(sent) <= sent && got == old(got) + (if packet.Some? then 1 else 0)
      ensures ok && packet.None? ==> theirs == old(theirs)
      ensures ok && packet.Some? ==> theirs == Advance(!client, good, old(theirs), packet.value.payload.kind)
      ensures ok <== packet.None? || (Suits(old(theirs), packet.value.payload.kind, packet.value.gen) &&
                                      (packet.value.payload.kind == SSH_MSG_KEXINIT ==>
                                          Acceptable(packet.value.payload.body)))
      ensures ok ==> submitted == old(submitted) + OnlyApps(keepalives) +
                                  Answers(packet, replies) + OnlyApps(output)
    {
      hide Ours, Sending, Idle, Opened, Working, Closing, Advance, OnlyApps, TakenBy, Judge, Understood;
      CheckTimeouts(rekey, keepalives);
      ok := true;
      if packet.Some? {
        DecryptPacket();
        ok := ProcessPacket(packet.value.payload, replies);
        if !ok { return; }
      }
      RestOfLoop(output);
    }

    ghost predicate Frame(queue: seq<Payload>, all: seq<Payload>)
      reads this`replyQueue, this`submitted
    {
      replyQueue == queue && submitted == all
    }
  }

  /** A packet is dropped, answered as unimplemented, fatal, ignored as a wrong guess, or handled. */
  datatype Verdict = Dropped | Unimplemented | Exit | Ignored | Handled

  function GateOf(requirenext: nat, ignorenext: bool, kind: nat): Verdict {
    if IsMisc(kind) then Dropped
    else if kind == SSH_MSG_DISCONNECT then Exit
    else if requirenext != 0 && requirenext != kind then
      if kind == 0 || kind > 49 || IsApp(kind) || kind == SSH_MSG_KEXINIT then Exit else Unimplemented
    else if ignorenext then Ignored else Handled
  }

  function Kinds(ps: seq<Packet>): seq<nat> { seq(|ps|, i requires 0 <= i < |ps| => ps[i].payload.kind) }

  // -- What the server makes of KEXDH_INITs --

  /** One exchange: a right guess is handled; a wrong one is ignored, and the one after it is handled. */
  function One(good: bool): seq<Verdict> { if good then [Handled] else [Ignored, Handled] }

  function Whole(good: nat -> bool, n: nat): seq<Verdict> {
    if n == 0 then [] else Whole(good, n - 1) + One(good(n - 1))
  }

  /** Up to a stage of the client. */
  function TakenBy(good: nat -> bool, s: Stage): seq<Verdict> {
    Whole(good, s.exch) + if s.at == Keys then One(good(s.exch)) else if s.at == Real then [Ignored] else []
  }

  lemma TakenNext(good: nat -> bool, s: Stage)
    ensures s.at == Init || s.at == Keys ==> TakenBy(good, After(true, good, s)) == TakenBy(good, s)
    ensures s.at == Guess ==>
              TakenBy(good, After(true, good, s)) == TakenBy(good, s) + [if good(s.exch) then Handled else Ignored]
    ensures s.at == Real && !good(s.exch) ==> TakenBy(good, After(true, good, s)) == TakenBy(good, s) + [Handled]
  {
  }

  function Count(v: Verdict, vs: seq<Verdict>): nat { multiset(vs)[v] }

  function OnlyApps(ps: seq<Payload>): seq<Payload> {
    if ps == [] then [] else OnlyApps(ps[..|ps| - 1]) + if IsApp(ps[|ps| - 1].kind) then [ps[|ps| - 1]] else []
  }

  /** What the layers above answer to a packet of theirs. */
  function Answers(packet: Option<Packet>, replies: seq<Payload>): seq<Payload> {
    if packet.Some? && IsApp(packet.value.payload.kind) then OnlyApps(replies) else []
  }

  lemma OnlyAppsOf(ps: seq<Payload>, i: nat)
    ensures OnlyApps([]) == [] && ps[..0] == []
    ensures i < |ps| ==> OnlyApps(ps[..i + 1]) == OnlyApps(ps[..i]) + if IsApp(ps[i].kind) then [ps[i]] else []
  {
    if i < |ps| { assert ps[..i + 1][..i] == ps[..i]; }
  }

  /** A side's stage after one more of its packets; one that is out of turn does not count. */
  function Advance(client: bool, good: nat -> bool, s: Stage, kind: nat): Stage {
    if IsKex(kind) && kind == KindAt(s.at) then After(client, good, s) else s
  }

  predicate AllSubmittable(ps: seq<Payload>) { forall i :: 0 <= i < |ps| ==> IsApp(ps[i].kind) || IsMisc(ps[i].kind) }

  /** Where a side stands that has sent KEXINIT. */
  function OpenedStage(client: bool, good: nat -> bool, k: nat): Stage {
    if client then Stage(k, if good(k) then Keys else Real) else Stage(k, Reply)
  }

  // -- What the order of one side's packets means --

  /** How many NEWKEYS a side has sent. */
  function Switches(ps: seq<Packet>): nat {
    if ps == [] then 0 else Switches(ps[..|ps| - 1]) + if ps[|ps| - 1].payload.kind == SSH_MSG_NEWKEYS then 1 else 0
  }

  lemma OrderlyPrefix(client: bool, good: nat -> bool, ps: seq<Packet>, n: nat)
    requires Orderly(client, good, ps) && n <= |ps|
    ensures Orderly(client, good, ps[..n])
  {
    assert forall i :: 0 <= i < n ==> ps[..n][..i] == ps[..i];
  }

  /** A side's keys change once per NEWKEYS, and so once per exchange. */
  lemma {:induction false} OneSwitchPerExchange(client: bool, good: nat -> bool, ps: seq<Packet>)
    requires Orderly(client, good, ps)
    ensures Standing(client, good, ps).exch == Switches(ps)
    decreases |ps|
  {
    if ps != [] {
      var n := |ps| - 1;
      OrderlyPrefix(client, good, ps, n);
      OneSwitchPerExchange(client, good, ps[..n]);
      assert Fits(Standing(client, good, ps[..n]), ps[n], n);
    }
  }

  /** NEWKEYS goes under the keys it ends: the packet after it is the first of the next generation. */
  lemma NewkeysUnderOldKeys(client: bool, good: nat -> bool, ps: seq<Packet>, i: nat, j: nat)
    requires Orderly(client, good, ps) && i < j < |ps| && ps[i].payload.kind == SSH_MSG_NEWKEYS
    ensures ps[i].gen < ps[j].gen && (j == i + 1 ==> ps[j].gen == ps[i].gen + 1)
  {
    assert Fits(Standing(client, good, ps[..i]), ps[i], i) && Fits(Standing(client, good, ps[..j]), ps[j], j);
    Growing(client, good, ps, i + 1, j);
    assert ps[..i + 1][..i] == ps[..i];
  }

  lemma {:induction false} Growing(client: bool, good: nat -> bool, ps: seq<Packet>, i: nat, j: nat)
    requires i <= j <= |ps|
    ensures Standing(client, good, ps[..i]).exch <= Standing(client, good, ps[..j]).exch
    decreases j
  {
    if i < j {
      Growing(client, good, ps, i, j - 1);
      assert ps[..j][..j - 1] == ps[..j - 1];
    }
  }

  lemma StandingNext(client: bool, good: nat -> bool, ps: seq<Packet>, n: nat)
    requires Orderly(client, good, ps) && n < |ps|
    ensures var s := Standing(client, good, ps[..n]);
            && Fits(s, ps[n], n)
            && Standing(client, good, ps[..n + 1]) == if IsKex(ps[n].payload.kind) then After(client, good, s) else s
  {
    assert ps[..n + 1][..n] == ps[..n];
  }

  /** Between a side's KEXINIT and its NEWKEYS only what section 7.1 of RFC 4253 allows goes out: nothing of the layers
      above, no service request or acceptance and no further KEXINIT. */
  lemma {:induction false} NoneDuringExchange(client: bool, good: nat -> bool, ps: seq<Packet>, i: nat, j: nat)
    requires Orderly(client, good, ps) && i < j < |ps| && ps[i].payload.kind == SSH_MSG_KEXINIT
    requires forall m :: i < m < j ==> ps[m].payload.kind != SSH_MSG_NEWKEYS
    ensures ps[j].payload.kind < 50 && ps[j].payload.kind !in {5, 6, 20}
    ensures Standing(client, good, ps[..j]).at != Init
    decreases j
  {
    hide Standing, Orderly;
    StandingNext(client, good, ps, j);
    StandingNext(client, good, ps, j - 1);
    if i < j - 1 { NoneDuringExchange(client, good, ps, i, j - 1); }
  }

  // -- Runs of a client and a server --

  /** A pass of session_loop at one side, which takes the next packet of the other or none. */
  datatype Pass = Pass(client: bool, rekey: bool, keepalives: seq<Payload>, deliver: bool, replies: seq<Payload>,
      output: seq<Payload>)

  /** Each side's view of the other is where the packets it has taken leave the other. */
  ghost predicate Views(me: Session, peer: Session)
    reads me, peer
  {
    me.AtHead() && me.got <= |peer.sent| && me.theirs == Standing(peer.client, peer.good, peer.sent[..me.got])
  }

  /** Both come to one verdict on the guess, and an algorithm of each kind is in common. */
  ghost predicate Matched(c: Session, s: Session) {
    && GoodTables(c.tables) && GoodTables(s.tables) && c.offer == Offer(c.tables) && s.offer == Offer(s.tables)
    && c.good == s.good && Negotiable(c.tables, s.tables)
    && forall k :: c.good(k) == ClientJudges(c.tables, s.tables) == ServerJudges(c.tables, s.tables)
  }

  ghost predicate Linked(c: Session, s: Session)
    reads c, s
  {
    c != s && c.client && !s.client && Matched(c, s) && Views(c, s) && Views(s, c)
  }

  /** The keys and sequence number that a packet was deciphered with are those it was enciphered with. */
  ghost predicate Deciphered(seen: seq<(nat, nat)>, ps: seq<Packet>) {
    |seen| <= |ps| && forall i :: 0 <= i < |seen| ==> seen[i] == (ps[i].gen, ps[i].seqno)
  }

  /** At the head of the loop the packets sent are in order, and the keys and number to take with are the stage's. */
  lemma HeadFacts(s: Session)
    requires s.AtHead()
    ensures Orderly(s.client, s.good, s.sent) && Offering(s.offer, s.sent)
    ensures s.keys.recv == s.theirs.exch && s.recvseq == s.got % SEQ_WRAP
  {
  }

  /** The next packet is in turn, and went under the keys and number with which it will be taken. */
  lemma NextInTurn(me: Session, peer: Session)
    requires Views(me, peer) && peer.AtHead() && me.got < |peer.sent|
    ensures var p := peer.sent[me.got];
            && Suits(me.theirs, p.payload.kind, p.gen) && p.gen == me.keys.recv && p.seqno == me.recvseq
            && Standing(peer.client, peer.good, peer.sent[..me.got + 1]) ==
                 Advance(peer.client, peer.good, me.theirs, p.payload.kind)
            && Offers(peer.offer, p.payload)
  {
    hide Session.AtHead, Standing, Orderly;
    HeadFacts(me);
    HeadFacts(peer);
    StandingNext(peer.client, peer.good, peer.sent, me.got);
  }

  /** A KEXINIT of the other side is one to agree on, with the verdict foretold. */
  lemma OfferAccepted(me: Session, peer: Session, p: Payload)
    requires me.client != peer.client && Offers(peer.offer, p)
    requires if me.client then Matched(me, peer) else Matched(peer, me)
    ensures p.kind == SSH_MSG_KEXINIT ==> me.Acceptable(p.body) && me.Foretold(p)
  {
    hide GoodTables, Offer, Understood, Negotiable, ClientJudges, ServerJudges, Judge;
    var ct, st := if me.client then me.tables else peer.tables, if me.client then peer.tables else me.tables;
    BothUnderstand(ct, st);
    Verdicts(ct, st);
    assert me.good(me.theirs.exch) == ClientJudges(ct, st) == ServerJudges(ct, st);
  }

  /** One pass at me, with what it saw of the packet it took. */
  method PassAt(me: Session, peer: Session, t: Pass, seen0: seq<(nat, nat)>) returns (ok: bool, seen: seq<(nat, nat)>)
    requires me != peer && me.client != peer.client && Views(me, peer) && Views(peer, me)
    requires if me.client then Matched(me, peer) else Matched(peer, me)
    requires AllSubmittable(t.keepalives) && AllSubmittable(t.replies) && AllSubmittable(t.output)
    requires |seen0| == me.got && Deciphered(seen0, peer.sent)
    modifies me
    ensures ok && Views(me, peer) && Views(peer, me) && old(me.sent) <= me.sent
    ensures |seen| == me.got && Deciphered(seen, peer.sent)
  {
    hide Session.AtHead, Suits, Session.Acceptable, Session.Foretold, Matched, Standing;
    SameGood(me, peer);
    seen := seen0;
    var packet := None;
    if t.deliver && me.got < |peer.sent| {
      NextInTurn(me, peer);
      OfferAccepted(me, peer, peer.sent[me.got].payload);
      OthersForetold(me, peer.sent[me.got].payload);
      packet := Some(peer.sent[me.got]);
      seen := seen + [(me.keys.recv, me.recvseq)];
    }
    ghost var was := me.sent;
    ok := me.LoopOnce(t.rekey, t.keepalives, packet, t.replies, t.output);
    assert me.sent[..peer.got] == was[..peer.got];
  }

  lemma SameGood(me: Session, peer: Session)
    requires if me.client then Matched(me, peer) else Matched(peer, me)
    ensures me.good == peer.good
  {
  }

  lemma OthersForetold(me: Session, p: Payload)
    ensures p.kind != SSH_MSG_KEXINIT ==> me.Foretold(p)
  {
  }

  /** In every run of a client and a server whose tables have algorithms in common and lead both to one verdict on the
      guess, with rekeying begun by either side at any time, nobody exits, each packet is deciphered with the keys and
      the sequence number it was enciphered with, and of the client's KEXDH_INITs the server handles one for each
      NEWKEYS that it sends, ignoring those that were wrong guesses. */
  method RunBoth(ct: Tables, st: Tables, passes: seq<Pass>)
    returns (ok: bool, c: Session, s: Session, cseen: seq<(nat, nat)>, sseen: seq<(nat, nat)>)
    requires GoodTables(ct) && GoodTables(st) && Negotiable(ct, st)
    requires !FirstsMeet(ct, st) || (FirstsUsable(ct) <==> Better(ct, st) || FirstsUsable(st))
    requires forall i :: 0 <= i < |passes| ==>
               AllSubmittable(passes[i].keepalives) && AllSubmittable(passes[i].replies)
                   && AllSubmittable(passes[i].output)
    ensures ok && Linked(c, s) && c.tables == ct && s.tables == st
    ensures |cseen| == c.got && Deciphered(cseen, s.sent) && |sseen| == s.got && Deciphered(sseen, c.sent)
    ensures Count(Handled, s.inits) == Switches(s.sent)
    ensures Count(Ignored, s.inits) == if ServerJudges(ct, st) then 0
                else Guesses(Standing(true, c.good, c.sent[..s.got]))
  {
    hide Views, Matched, TakenBy, GoodTables, Negotiable, FirstsMeet, FirstsUsable, Better;
    c, s := Connect(ct, st);
    ok, cseen, sseen := true, [], [];
    for i := 0 to |passes|
      invariant ok && Linked(c, s) && fresh(c) && fresh(s) && c.tables == ct && s.tables == st
      invariant |cseen| == c.got && Deciphered(cseen, s.sent) && |sseen| == s.got && Deciphered(sseen, c.sent)
    {
      if passes[i].client {
        ok, cseen := PassAt(c, s, passes[i], cseen);
      } else {
        ok, sseen := PassAt(s, c, passes[i], sseen);
      }
    }
    OneHandled(c, s);
  }

  /** Nothing gets stuck: when all packets have arrived no exchange is going on and nothing is held back. */
  lemma NeverStuck(c: Session, s: Session)
    requires Linked(c, s) && c.got == |s.sent| && s.got == |c.sent|
    ensures c.Idle() && s.Idle() && c.replyQueue == [] && s.replyQueue == []
  {
    hide Standing, Orderly, Apps, Offering, Matched, TakenBy;
    assert s.sent[..c.got] == s.sent && c.sent[..s.got] == c.sent;
    assert c.theirs == s.Ours() && s.theirs == c.Ours();
  }

  /** Two sessions as they begin. */
  method Connect(ct: Tables, st: Tables) returns (c: Session, s: Session)
    requires GoodTables(ct) && GoodTables(st) && Negotiable(ct, st)
    requires !FirstsMeet(ct, st) || (FirstsUsable(ct) <==> Better(ct, st) || FirstsUsable(st))
    ensures Linked(c, s) && c.tables == ct && s.tables == st && c.got == 0 && s.got == 0 && fresh(c) && fresh(s)
  {
    hide GoodTables, Negotiable, FirstsMeet, FirstsUsable, Better, Session.AtHead, Session.Sending;
    ghost var verdict := ClientJudges(ct, st);
    ghost var good := (k: nat) => verdict;
    c := new Session(true, ct, good);
    c.Begin();
    s := new Session(false, st, good);
    s.Begin();
    assert s.sent[..0] == [] && c.sent[..0] == [];
    assert verdict == ServerJudges(ct, st);
    assert forall k :: c.good(k) == verdict;
  }

  // -- One KEXDH_INIT per exchange --

  lemma {:induction false} CountWhole(good: nat -> bool, v: bool, n: nat)
    requires forall k :: good(k) == v
    ensures Count(Handled, Whole(good, n)) == n && Count(Ignored, Whole(good, n)) == if v then 0 else n
  {
    hide Count, One;
    CountOne(v);
    if n > 0 {
      CountWhole(good, v, n - 1);
      CountBoth(Whole(good, n - 1), One(v));
    }
  }

  lemma CountOne(v: bool)
    ensures Count(Handled, One(v)) == 1 && Count(Ignored, One(v)) == if v then 0 else 1
    ensures Count(Handled, []) == 0 && Count(Ignored, []) == 0 && Count(Handled, [Ignored]) == 0
    ensures Count(Ignored, [Ignored]) == 1
  {
  }

  lemma CountBoth(a: seq<Verdict>, b: seq<Verdict>)
    ensures Count(Handled, a + b) == Count(Handled, a) + Count(Handled, b)
    ensures Count(Ignored, a + b) == Count(Ignored, a) + Count(Ignored, b)
  {
  }

  lemma CountTaken(good: nat -> bool, v: bool, s: Stage)
    requires forall k :: good(k) == v
    ensures Count(Handled, TakenBy(good, s)) == s.exch + if s.at == Keys then 1 else 0
    ensures Count(Ignored, TakenBy(good, s)) == if v then (if s.at == Real then 1 else 0)
                                                else s.exch + if s.at == Real || s.at == Keys then 1 else 0
  {
    hide Count, One, Whole;
    CountWhole(good, v, s.exch);
    CountOne(v);
    CountBoth(Whole(good, s.exch), if s.at == Keys then One(good(s.exch)) else if s.at == Real then [Ignored] else []);
  }

  /** The server has handled as many KEXDH_INITs as it has sent NEWKEYS, and it has ignored none if the guess is right
      and else as many as the guesses it has taken. */
  lemma OneHandled(c: Session, s: Session)
    requires Linked(c, s)
    ensures Count(Handled, s.inits) == Switches(s.sent)
    ensures Count(Ignored, s.inits) == if ServerJudges(c.tables, s.tables) then 0
                else Guesses(Standing(true, c.good, c.sent[..s.got]))
  {
    hide TakenBy, Count, Orderly, Switches, Standing, GoodTables, Offer, Negotiable, ClientJudges, ServerJudges;
    HeadFacts(s);
    CountTaken(s.good, ServerJudges(c.tables, s.tables), s.theirs);
    OneSwitchPerExchange(false, s.good, s.sent);
  }

  /** How many guesses a client at a stage has sent. */
  function Guesses(s: Stage): nat { s.exch + if s.at == Init || s.at == Guess then 0 else 1 }

  /** The client's KEXDH_INITs, as many as the server would have to take if it judged as the client does. */
  lemma {:induction false} InitsSent(good: nat -> bool, ps: seq<Packet>)
    requires Orderly(true, good, ps)
    ensures Inits(ps) == |TakenBy(good, Standing(true, good, ps))|
    ensures Standing(true, good, ps).at != Reply
    ensures (Standing(true, good, ps).at == Real ==> !good(Standing(true, good, ps).exch))
    decreases |ps|
  {
    hide TakenBy;
    if ps != [] {
      var n := |ps| - 1;
      OrderlyPrefix(true, good, ps, n);
      InitsSent(good, ps[..n]);
      assert Fits(Standing(true, good, ps[..n]), ps[n], n);
      TakenNext(good, Standing(true, good, ps[..n]));
    } else {
      NoneTaken(good);
    }
  }

  lemma NoneTaken(good: nat -> bool)
    ensures TakenBy(good, Stage(0, Init)) == []
  {
  }

  function Inits(ps: seq<Packet>): nat {
    if ps == [] then 0 else Inits(ps[..|ps| - 1]) + if ps[|ps| - 1].payload.kind == SSH_MSG_KEXDH_INIT then 1 else 0
  }

  /** A session that has sent its KEXINIT, and the client its guess. */
  method Fresh(client: bool, t: Tables, ghost verdict: bool) returns (s: Session)
    requires GoodTables(t)
    ensures fresh(s) && s.AtHead() && s.client == client && s.tables == t && forall k :: s.good(k) == verdict
    ensures s.got == 0 && s.theirs == Stage(0, Init) && |s.sent| == if client then 2 else 1
    ensures s.sent[0] == Packet(Payload(SSH_MSG_KEXINIT, Offered(Offer(t))), 0, 0)
    ensures client ==> s.sent[1].payload.kind == SSH_MSG_KEXDH_INIT && s.sent[1].gen == 0
  {
    hide GoodTables, Session.AtHead, Session.Sending;
    ghost var good := (k: nat) => verdict;
    s := new Session(client, t, good);
    s.Begin();
    HeadFacts(s);
    assert forall k :: s.good(k) == good(k);
    assert |s.sent| == |Kinds(s.sent)| && Kinds(s.sent)[0] == SSH_MSG_KEXINIT;
    assert client ==> Kinds(s.sent)[1] == SSH_MSG_KEXDH_INIT;
    FirstPackets(client, good, s.sent);
  }

  lemma FirstPackets(client: bool, good: nat -> bool, ps: seq<Packet>)
    requires Orderly(client, good, ps)
    ensures |ps| >= 1 ==> ps[0].gen == 0 && ps[0].seqno == 0
    ensures |ps| >= 2 && ps[0].payload.kind == SSH_MSG_KEXINIT ==> ps[1].gen == 0
  {
    if |ps| >= 1 { assert ps[..0] == [] && Fits(Standing(client, good, ps[..0]), ps[0], 0); }
    if |ps| >= 2 { assert ps[..1][..0] == [] && Fits(Standing(client, good, ps[..1]), ps[1], 1); }
  }

  /** A pass that only takes a packet in turn. */
  method Take(me: Session, p: Packet)
    requires me.AtHead() && Suits(me.theirs, p.payload.kind, p.gen) && me.Foretold(p.payload)
    requires p.payload.kind == SSH_MSG_KEXINIT ==> me.Acceptable(p.payload.body)
    modifies me
    ensures me.AtHead() && me.theirs == Advance(!me.client, me.good, old(me.theirs), p.payload.kind)
    ensures me.got == old(me.got) + 1 && old(me.sent) <= me.sent
  {
    hide Session.AtHead, Session.Acceptable, Session.Foretold, Suits, Advance;
    var ok := me.LoopOnce(false, [], Some(p), [], []);
  }

  /** With tables that lead to different verdicts there is a run in which the guess is ignored though it is the
      client's only KEXDH_INIT, or is handled though the client sends another. */
  method Misjudge(ct: Tables, st: Tables) returns (c: Session, s: Session)
    requires GoodTables(ct) && GoodTables(st) && Negotiable(ct, st)
    requires FirstsMeet(ct, st) && (FirstsUsable(ct) <==> !Better(ct, st) && !FirstsUsable(st))
    ensures c.client && !s.client && c.tables == ct && s.tables == st
    ensures c.got <= |s.sent| && c.theirs == Standing(false, c.good, s.sent[..c.got])
    ensures s.got <= |c.sent| && s.theirs == Standing(true, s.good, c.sent[..s.got])
    ensures FirstsUsable(ct) ==> s.inits == [Ignored] && Inits(c.sent) == 1
    ensures !FirstsUsable(ct) ==> s.inits == [Handled] && Inits(c.sent) == 2
  {
    hide GoodTables, Negotiable, FirstsMeet, FirstsUsable, Better, Session.AtHead, Judge, Understood, Offer, Inits;
    BothUnderstand(ct, st);
    Verdicts(ct, st);
    c := Fresh(true, ct, ClientJudges(ct, st));
    s := Fresh(false, st, ServerJudges(ct, st));
    var kexinit, init, answer := c.sent[0], c.sent[1], s.sent[0];
    Take(s, kexinit);
    Take(s, init);
    Take(c, answer);
    assert c.sent[..2] == [kexinit, init] && s.sent[..1] == [answer];
    FirstViews(c.good, s.good, kexinit, init, answer);
    Outcomes(c, s);
  }

  /** The server at its view of the client's first two packets, and the client at its view of the server's first. */
  lemma FirstViews(cgood: nat -> bool, sgood: nat -> bool, kexinit: Packet, init: Packet, answer: Packet)
    requires kexinit.payload.kind == SSH_MSG_KEXINIT && init.payload.kind == SSH_MSG_KEXDH_INIT
    requires answer.payload.kind == SSH_MSG_KEXINIT
    ensures Standing(true, sgood, [kexinit, init]) == Stage(0, if sgood(0) then Keys else Real)
    ensures Standing(false, cgood, [answer]) == Stage(0, Reply)
  {
    assert [kexinit, init][..1] == [kexinit] && [kexinit][..0] == [] && [answer][..0] == [];
    assert Standing(true, sgood, [kexinit]) == Stage(0, Guess);
  }

  lemma Outcomes(c: Session, s: Session)
    requires c.AtHead() && s.AtHead() && c.client && !s.client && c.theirs == Stage(0, Reply)
    requires s.theirs == Stage(0, if s.good(0) then Keys else Real)
    ensures s.inits == [if s.good(0) then Handled else Ignored] && Inits(c.sent) == if c.good(0) then 1 else 2
  {
    InitsSent(c.good, c.sent);
  }
}
