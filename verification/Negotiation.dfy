/** The lists of a KEXINIT and what read_kex_algos makes of them, at both sides. */
module Negotiation {
  import opened Bits
  import opened Common
  import opened Algos

  /** One side's tables; guess2 says whether it was built to know the better guess rule. */
  datatype Tables = Tables(guess2: bool, kex: seq<Algo>, hostkey: seq<Algo>, ciphers: seq<Algo>, hashes: seq<Algo>,
      comp: seq<Algo>)
  /** The lists of a KEXINIT, for client to server and server to client where there are two. */
  datatype Lists = Lists(kex: seq<U8>, hostkey: seq<U8>, c2sCipher: seq<U8>, s2cCipher: seq<U8>, c2sHash: seq<U8>,
                         s2cHash: seq<U8>, c2sComp: seq<U8>, s2cComp: seq<U8>)
  datatype Suite = Suite(cipher: Name, hash: Name, comp: Name)
  /** What one side takes away from a negotiation: what it sends with, what it receives with, and its verdict on the
      guess. */
  datatype Outcome = Outcome(kex: Name, hostkey: Name, trans: Suite, recv: Suite, allgood: bool)

  predicate GoodTables(t: Tables) {
    && GoodTable(t.kex) && GoodTable(t.hostkey) && GoodTable(t.ciphers) && GoodTable(t.hashes) && GoodTable(t.comp)
    && (t.guess2 <==> KEXGUESS2 in Usable(t.kex))
  }

  function Offer(t: Tables): Lists {
    Lists(Print(t.kex), Print(t.hostkey), Print(t.ciphers), Print(t.ciphers), Print(t.hashes), Print(t.hashes),
          Print(t.comp), Print(t.comp))
  }

  /** The lists that send_msg_kexinit writes. */
  method PutAlgos(t: Tables) returns (l: Lists)
    requires GoodTables(t)
    ensures l == Offer(t)
  {
    hide Join, Usable;
    var _, kex := BufPutAlgolist(t.kex);
    var _, hostkey := BufPutAlgolist(t.hostkey);
    var _, c2sCipher := BufPutAlgolist(t.ciphers);
    var _, s2cCipher := BufPutAlgolist(t.ciphers);
    var _, c2sHash := BufPutAlgolist(t.hashes);
    var _, s2cHash := BufPutAlgolist(t.hashes);
    var _, c2sComp := BufPutAlgolist(t.comp);
    var _, s2cComp := BufPutAlgolist(t.comp);
    l := Lists(kex, hostkey, c2sCipher, s2cCipher, c2sHash, s2cHash, c2sComp, s2cComp);
  }

  // -- Reading --

  function Start(t: Tables): Guess { if t.guess2 then Look else No }

  ghost function PickSuite(server: bool, t: Tables, cipher: seq<U8>, hash: seq<U8>, comp: seq<U8>): Option<Suite> {
    var c, h, z := Pick(server, cipher, t.ciphers), Pick(server, hash, t.hashes), Pick(server, comp, t.comp);
    if c.None? || h.None? || z.None? then None else Some(Suite(c.value, h.value, z.value))
  }

  /** The verdict on the guess: right for the key exchange and, under the rule found there, for the host key. */
  ghost function Judge(server: bool, t: Tables, l: Lists): bool {
    var rule := Looked(Start(t), NamesIn(l.kex));
    && GoodGuess(rule, Agreement(server, l.kex, t.kex))
    && GoodGuess(Looked(rule, NamesIn(l.hostkey)), Agreement(server, l.hostkey, t.hostkey))
  }

  /** Nothing is the exit for want of an algorithm in common. */
  ghost function Understood(server: bool, t: Tables, l: Lists): Option<Outcome> {
    var kex, hostkey := Pick(server, l.kex, t.kex), Pick(server, l.hostkey, t.hostkey);
    var c2s := PickSuite(server, t, l.c2sCipher, l.c2sHash, l.c2sComp);
    var s2c := PickSuite(server, t, l.s2cCipher, l.s2cHash, l.s2cComp);
    if kex.None? || kex.value == KEXGUESS2 || hostkey.None? || c2s.None? || s2c.None? then None
    else Some(Outcome(kex.value, hostkey.value, if server then s2c.value else c2s.value,
                      if server then c2s.value else s2c.value,
                      Judge(server, t, l)))
  }

  /** read_kex_algos. */
  method ReadKexAlgos(server: bool, t: Tables, l: Lists) returns (r: Option<Outcome>)
    ensures r == Understood(server, t, l) && (r.Some? ==> r.value.allgood == Judge(server, t, l))
    ensures r.None? <==>
              || Pick(server, l.kex, t.kex).None? || Pick(server, l.kex, t.kex).value == KEXGUESS2
              || Pick(server, l.hostkey, t.hostkey).None?
              || Pick(server, l.c2sCipher, t.ciphers).None? || Pick(server, l.s2cCipher, t.ciphers).None?
              || Pick(server, l.c2sHash, t.hashes).None? || Pick(server, l.s2cHash, t.hashes).None?
              || Pick(server, l.c2sComp, t.comp).None? || Pick(server, l.s2cComp, t.comp).None?
    ensures r.Some? ==>
              var toServer, toClient := if server then r.value.recv else r.value.trans,
                                        if server then r.value.trans else r.value.recv;
              && Some(toServer.cipher) == Pick(server, l.c2sCipher, t.ciphers)
              && Some(toServer.hash) == Pick(server, l.c2sHash, t.hashes)
              && Some(toServer.comp) == Pick(server, l.c2sComp, t.comp)
              && Some(toClient.cipher) == Pick(server, l.s2cCipher, t.ciphers)
              && Some(toClient.hash) == Pick(server, l.s2cHash, t.hashes)
              && Some(toClient.comp) == Pick(server, l.s2cComp, t.comp)
              && Some(r.value.kex) == Pick(server, l.kex, t.kex)
              && Some(r.value.hostkey) == Pick(server, l.hostkey, t.hostkey)
  {
    hide Agreement, NamesIn, GoodGuess, Pick;
    var kex, goodKex, rule := BufMatchAlgo(server, l.kex, t.kex, Start(t));
    if kex.None? || kex.value == KEXGUESS2 { return None; }
    var hostkey, goodHost, _ := BufMatchAlgo(server, l.hostkey, t.hostkey, rule);
    if hostkey.None? { return None; }
    var allgood := goodKex && goodHost;
    var c2sCipher, _, _ := BufMatchAlgo(server, l.c2sCipher, t.ciphers, No);
    if c2sCipher.None? { return None; }
    var s2cCipher, _, _ := BufMatchAlgo(server, l.s2cCipher, t.ciphers, No);
    if s2cCipher.None? { return None; }
    var c2sHash, _, _ := BufMatchAlgo(server, l.c2sHash, t.hashes, No);
    if c2sHash.None? { return None; }
    var s2cHash, _, _ := BufMatchAlgo(server, l.s2cHash, t.hashes, No);
    if s2cHash.None? { return None; }
    var c2sComp, _, _ := BufMatchAlgo(server, l.c2sComp, t.comp, No);
    if c2sComp.None? { return None; }
    var s2cComp, _, _ := BufMatchAlgo(server, l.s2cComp, t.comp, No);
    if s2cComp.None? { return None; }
    var c2s := Suite(c2sCipher.value, c2sHash.value, c2sComp.value);
    var s2c := Suite(s2cCipher.value, s2cHash.value, s2cComp.value);
    r := Some(Outcome(kex.value, hostkey.value, if server then s2c else c2s, if server then c2s else s2c, allgood));
  }

  // -- Both sides --

  function Shared(lc: seq<Algo>, ls: seq<Algo>): Option<Name> { Chosen(Usable(lc), Usable(ls)) }

  /** Client and server have an algorithm of each kind in common. */
  predicate Negotiable(ct: Tables, st: Tables) {
    && Shared(ct.kex, st.kex).Some? && Shared(ct.kex, st.kex).value != KEXGUESS2
    && Shared(ct.hostkey, st.hostkey).Some? && Shared(ct.ciphers, st.ciphers).Some?
    && Shared(ct.hashes, st.hashes).Some? && Shared(ct.comp, st.comp).Some?
  }

  /** Both sides know the better rule. */
  predicate Better(ct: Tables, st: Tables) { ct.guess2 && st.guess2 }

  predicate FirstsMeet(ct: Tables, st: Tables) {
    Meets(ct.kex, st.kex, Better(ct, st)) && Meets(ct.hostkey, st.hostkey, Better(ct, st))
  }

  predicate FirstsUsable(t: Tables) { FirstUsable(t.kex) && FirstUsable(t.hostkey) }

  predicate ClientJudges(ct: Tables, st: Tables) { FirstsMeet(ct, st) && FirstsUsable(ct) }
  predicate ServerJudges(ct: Tables, st: Tables) { FirstsMeet(ct, st) && (Better(ct, st) || FirstsUsable(st)) }

  /** Each side finds out that the other knows the better rule, if it knows it itself. */
  lemma RuleFound(mine: Tables, theirs: Tables)
    requires GoodTables(mine) && GoodTables(theirs)
    ensures Looked(Start(mine), NamesIn(Print(theirs.kex))) == Rule(mine.guess2 && theirs.guess2)
  {
    hide NamesIn, Print, Usable;
    Reads(theirs.kex, KEXGUESS2);
  }

  /** A rule once found stays. */
  lemma Decided(better: bool, names: Option<seq<Name>>)
    ensures Looked(Rule(better), names) == Rule(better)
  {
  }

  /** The verdicts that the tables lead to. */
  lemma Verdicts(ct: Tables, st: Tables)
    requires GoodTables(ct) && GoodTables(st)
    ensures Judge(false, ct, Offer(st)) == ClientJudges(ct, st) && Judge(true, st, Offer(ct)) == ServerJudges(ct, st)
  {
    hide Agreement, NamesIn, GoodGuess, Print, Usable, Meets, FirstUsable, GoodTable, Looked;
    var b := Better(ct, st);
    RuleFound(ct, st);
    RuleFound(st, ct);
    Decided(b, NamesIn(Print(st.hostkey)));
    Decided(b, NamesIn(Print(ct.hostkey)));
    ClientChooses(ct.kex, st.kex, b);
    ServerChooses(ct.kex, st.kex, b);
    ClientChooses(ct.hostkey, st.hostkey, b);
    ServerChooses(ct.hostkey, st.hostkey, b);
  }

  /** What two sides that read each other's lists take away: nothing, both of them, if an algorithm of some kind is
      wanting; else the same names, the first of the client's that the server has, and each sends with what the other
      receives with. */
  ghost predicate InAccord(ct: Tables, st: Tables, c: Option<Outcome>, s: Option<Outcome>) {
    && (c.Some? <==> Negotiable(ct, st)) && (s.Some? <==> Negotiable(ct, st))
    && (c.Some? ==> && Some(c.value.kex) == Some(s.value.kex) == Shared(ct.kex, st.kex)
                    && Some(c.value.hostkey) == Some(s.value.hostkey) == Shared(ct.hostkey, st.hostkey)
                    && c.value.trans == s.value.recv && c.value.recv == s.value.trans
                    && Some(c.value.trans.cipher) == Shared(ct.ciphers, st.ciphers)
                    && c.value.allgood == ClientJudges(ct, st) && s.value.allgood == ServerJudges(ct, st))
  }

  lemma BothUnderstand(ct: Tables, st: Tables)
    requires GoodTables(ct) && GoodTables(st)
    ensures InAccord(ct, st, Understood(false, ct, Offer(st)), Understood(true, st, Offer(ct)))
  {
    hide Judge, Pick, Agreement, GoodGuess, Print, Usable, Chosen, ClientJudges, ServerJudges, GoodTable, Meets,
        FirstUsable;
    Verdicts(ct, st);
    ClientChooses(ct.kex, st.kex, true);
    ServerChooses(ct.kex, st.kex, true);
    ClientChooses(ct.hostkey, st.hostkey, true);
    ServerChooses(ct.hostkey, st.hostkey, true);
    ClientChooses(ct.ciphers, st.ciphers, true);
    ServerChooses(ct.ciphers, st.ciphers, true);
    ClientChooses(ct.hashes, st.hashes, true);
    ServerChooses(ct.hashes, st.hashes, true);
    ClientChooses(ct.comp, st.comp, true);
    ServerChooses(ct.comp, st.comp, true);
  }

  /** A negotiation as both sides carry it out: each prints its tables and reads the other's lists. */
  method Negotiate(ct: Tables, st: Tables) returns (c: Option<Outcome>, s: Option<Outcome>)
    requires GoodTables(ct) && GoodTables(st)
    ensures InAccord(ct, st, c, s)
  {
    hide InAccord, Understood, GoodTables;
    var fromClient := PutAlgos(ct);
    var fromServer := PutAlgos(st);
    c := ReadKexAlgos(false, ct, fromServer);
    s := ReadKexAlgos(true, st, fromClient);
    BothUnderstand(ct, st);
  }

  /** The verdicts are alike exactly when the first names do not meet, or it is the same at both sides whether first
      entries are usable; under the better rule the server's do not matter. */
  lemma SameVerdict(ct: Tables, st: Tables)
    requires GoodTables(ct) && GoodTables(st)
    ensures Judge(false, ct, Offer(st)) == Judge(true, st, Offer(ct)) <==>
            !FirstsMeet(ct, st) || (FirstsUsable(ct) <==> Better(ct, st) || FirstsUsable(st))
  {
    hide Judge, Offer, FirstsMeet, FirstsUsable, GoodTables;
    Verdicts(ct, st);
  }

  /** Spelt out for two sides that know the better rule. */
  lemma SameVerdictBetter(ct: Tables, st: Tables)
    requires GoodTables(ct) && GoodTables(st) && ct.guess2 && st.guess2
    ensures var uck, usk, uch, ush := Usable(ct.kex), Usable(st.kex), Usable(ct.hostkey), Usable(st.hostkey);
            Judge(false, ct, Offer(st)) == Judge(true, st, Offer(ct)) <==>
            FirstsUsable(ct) || uck[0] !in usk || uch == [] || uch[0] !in ush
  {
    hide Judge, Offer, Usable;
    SameVerdict(ct, st);
  }

  function Plainly(hostkey: seq<Algo>): Tables {
    var a := [Algo([97], true)];
    Tables(false, a, hostkey, a, a, a)
  }

  /** Under the old rule a server that has no host key of the first kind ignores a guess that its client takes for
      right. */
  lemma VerdictsCanDiffer()
    ensures var ct, st := Plainly([Algo([98], true)]), Plainly([Algo([99], false), Algo([98], true)]);
            && GoodTables(ct) && GoodTables(st) && Negotiable(ct, st)
            && Judge(false, ct, Offer(st)) && !Judge(true, st, Offer(ct))
  {
    hide Judge, Offer;
    var a, b, c := Algo([97], true), Algo([98], true), Algo([99], false);
    assert [a][1..] == [] && [b][1..] == [] && [c, b][1..] == [b];
    assert Usable([a]) == [[97]] && Usable([b]) == [[98]] && Usable([c, b]) == [[98]];
    Verdicts(Plainly([b]), Plainly([c, b]));
  }
}
