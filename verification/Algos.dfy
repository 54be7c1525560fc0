/** Name lists of section 7.1 of RFC 4253 printed and parsed, and the choice that both sides make. */
module Algos {
  import opened Bits
  import opened Common

  const MAX_PROPOSED_ALGO: nat := 20
  const MAX_NAME_LEN: nat := 64
  const ALGOLIST_SIZE: nat := 300
  const COMMA: U8 := 44

  type Name = seq<U8>

  datatype Algo = Algo(name: Name, usable: bool)

  predicate GoodName(n: Name) { n != [] && forall i :: 0 <= i < |n| ==> !Stops(n[i]) }
  predicate GoodNames(ns: seq<Name>) { forall i :: 0 <= i < |ns| ==> GoodName(ns[i]) }

  /** The names of the usable entries, in order. */
  function Usable(local: seq<Algo>): seq<Name> {
    if local == [] then [] else (if local[0].usable then [local[0].name] else []) + Usable(local[1..])
  }

  lemma {:induction false} UsableNext(local: seq<Algo>, a: Algo)
    ensures Usable(local + [a]) == if a.usable then Usable(local) + [a.name] else Usable(local)
    decreases |local|
  {
    if local == [] {
      assert local + [a] == [a] && [a][1..] == [];
    } else {
      UsableNext(local[1..], a);
      assert (local + [a])[1..] == local[1..] + [a];
    }
  }

  // -- Printing --

  function Join(ns: seq<Name>): seq<U8> {
    if ns == [] then [] else if |ns| == 1 then ns[0] else ns[0] + [COMMA] + Join(ns[1..])
  }

  lemma {:induction false} JoinNext(ns: seq<Name>, n: Name)
    ensures Join(ns + [n]) == if ns == [] then n else Join(ns) + [COMMA] + n
    decreases |ns|
  {
    if ns == [] {
      assert ns + [n] == [n];
    } else {
      JoinNext(ns[1..], n);
      assert (ns + [n])[1..] == ns[1..] + [n];
      if |ns| > 1 { Regroup(ns[0] + [COMMA], Join(ns[1..]), [COMMA] + n); }
      Regroup(Join(ns[1..]), [COMMA], n);
      Regroup(Join(ns), [COMMA], n);
      Regroup(ns[0] + [COMMA], Join(ns[1..]), [COMMA] + n);
    }
  }

  /** buf_put_algolist: the usable names with commas; false is the exit when they do not fit the buffer. */
  method BufPutAlgolist(local: seq<Algo>) returns (ok: bool, list: seq<U8>)
    ensures ok <==> |Join(Usable(local))| <= ALGOLIST_SIZE
    ensures ok ==> list == Join(Usable(local))
  {
    hide Join, Usable;
    list := [];
    var donefirst := false;
    NoNames(local);
    for i := 0 to |local|
      invariant list == Join(Usable(local[..i])) && (donefirst <==> Usable(local[..i]) != [])
    {
      assert local[..i + 1] == local[..i] + [local[i]];
      NoNames(local);
      UsableNext(local[..i], local[i]);
      JoinNext(Usable(local[..i]), local[i].name);
      if local[i].usable {
        if donefirst { list := list + [COMMA]; }
        list := list + local[i].name;
        donefirst := true;
      }
    }
    assert local[..|local|] == local;
    ok := |list| <= ALGOLIST_SIZE;
  }

  lemma NoNames(local: seq<Algo>)
    ensures local[..0] == [] && Usable([]) == [] && Join([]) == [] && forall n: Name :: [] + n == n
  {
  }

  // -- Parsing --

  /** A name goes on until a comma or a zero byte. */
  predicate Stops(b: U8) { b == COMMA || b == 0 }

  predicate Plain(s: seq<U8>) { forall i :: 0 <= i < |s| ==> !Stops(s[i]) }

  /** A string as the C library sees it. */
  function CString(s: seq<U8>): seq<U8> {
    if s == [] || s[0] == 0 then [] else [s[0]] + CString(s[1..])
  }

  lemma {:induction false} PlainString(s: seq<U8>)
    requires Plain(s)
    ensures CString(s) == s
    decreases |s|
  {
    if s != [] { PlainString(s[1..]); }
  }

  /** The names of a list, at most room of them, the last one taking all that is left; nothing if a zero byte comes
      before that. */
  ghost function Parse(s: seq<U8>, room: nat): Option<seq<Name>> {
    if room <= 1 || Plain(s) then Some([CString(s)])
    else
      var c := FirstStop(s);
      if s[c] == 0 then None else Prepend([s[..c]], Parse(s[c + 1..], room - 1))
  }

  function Prepend(done: seq<Name>, rest: Option<seq<Name>>): Option<seq<Name>> {
    if rest.None? then None else Some(done + rest.value)
  }

  /** No stop among the first c bytes. */
  predicate PlainBefore(s: seq<U8>, c: nat)
    requires c <= |s|
  {
    forall i :: 0 <= i < c ==> !Stops(s[i])
  }

  ghost function FirstStop(s: seq<U8>): (c: nat)
    requires !Plain(s)
    ensures c < |s| && Stops(s[c]) && PlainBefore(s, c)
  {
    var i :| 0 <= i < |s| && Stops(s[i]);
    Least(s, i)
  }

  /** The first stop at or before position i. */
  ghost function Least(s: seq<U8>, i: nat): (c: nat)
    requires i < |s| && Stops(s[i])
    ensures c <= i && Stops(s[c]) && PlainBefore(s, c)
  {
    if PlainBefore(s, i) then i
    else
      var j :| 0 <= j < i && Stops(s[j]);
      Least(s, j)
  }

  lemma FirstStopIs(s: seq<U8>, c: nat)
    requires c < |s| && Stops(s[c]) && PlainBefore(s, c)
    ensures !Plain(s) && FirstStop(s) == c
  {
  }

  /** The first loop of buf_match_algo: the names of the other side, or nothing. */
  method SplitList(list: seq<U8>) returns (names: Option<seq<Name>>)
    ensures names == Parse(list, MAX_PROPOSED_ALGO)
  {
    hide Parse, CString;
    var done: seq<Name> := [];
    var start, i := 0, 0;
    ParseAll(list, MAX_PROPOSED_ALGO);
    while i < |list|
      invariant 0 <= start <= i <= |list| && |done| < MAX_PROPOSED_ALGO - 1 && PlainBefore(list[start..], i - start)
      invariant Parse(list, MAX_PROPOSED_ALGO) == Prepend(done, Parse(list[start..], MAX_PROPOSED_ALGO - |done|))
    {
      ParseStep(list, done, start, i, MAX_PROPOSED_ALGO - |done|);
      if list[i] == 0 { return None; }
      if list[i] == COMMA {
        done := done + [list[start..i]];
        start := i + 1;
      }
      if |done| + 1 >= MAX_PROPOSED_ALGO { break; }
      i := i + 1;
    }
    ParseLast(list[start..], MAX_PROPOSED_ALGO - |done|);
    names := Some(done + [CString(list[start..])]);
  }

  lemma ParseAll(list: seq<U8>, room: nat)
    ensures list[0..] == list && Prepend([], Parse(list, room)) == Parse(list, room)
  {
    var r := Parse(list, room);
    if r.Some? { assert [] + r.value == r.value; }
  }

  lemma ParseLast(s: seq<U8>, room: nat)
    ensures room <= 1 || Plain(s) ==> Parse(s, room) == Some([CString(s)])
  {
  }

  lemma ParseStep(list: seq<U8>, done: seq<Name>, start: nat, i: nat, room: nat)
    requires start <= i < |list| && PlainBefore(list[start..], i - start) && room > 1
    ensures list[i] == 0 ==> Parse(list[start..], room) == None
    ensures list[i] == COMMA ==>
              Prepend(done, Parse(list[start..], room)) ==
                  Prepend(done + [list[start..i]], Parse(list[i + 1..], room - 1))
  {
    var s := list[start..];
    assert s[i - start] == list[i] && s[..i - start] == list[start..i] && s[i - start + 1..] == list[i + 1..];
    if Stops(list[i]) { FirstStopIs(s, i - start); }
    if list[i] == COMMA {
      var rest := Parse(list[i + 1..], room - 1);
      assert Parse(s, room) == Prepend([s[..i - start]], Parse(s[i - start + 1..], room - 1));
      if rest.Some? { Regroup(done, [list[start..i]], rest.value); }
    }
  }

  lemma JoinHead(ns: seq<Name>)
    requires |ns| > 1 && GoodName(ns[0])
    ensures var s, n := Join(ns), |ns[0]|;
            n < |s| && s[..n] == ns[0] && s[n] == COMMA && s[n + 1..] == Join(ns[1..]) && PlainBefore(s, n)
  {
    var s, n := Join(ns), |ns[0]|;
    assert s == ns[0] + [COMMA] + Join(ns[1..]);
    assert s[..n] == ns[0];
    assert forall i :: 0 <= i < n ==> s[i] == ns[0][i];
  }

  /** What is printed is parsed back, up to the number of names that are allowed; an empty list is one empty name. */
  lemma {:induction false} ParseUndoesJoin(ns: seq<Name>, room: nat)
    requires GoodNames(ns) && |ns| <= room
    ensures Parse(Join(ns), room) == Some(if ns == [] then [[]] else ns)
    decreases |ns|
  {
    hide Join, Parse;
    if |ns| > 1 {
      JoinHead(ns);
      ParseUndoesJoin(ns[1..], room - 1);
      ParseStep(Join(ns), [], 0, |ns[0]|, room);
      ParseAll(Join(ns), room);
      assert Join(ns)[0..|ns[0]|] == ns[0];
      assert [] + [ns[0]] + ns[1..] == ns;
    } else {
      FewNames(ns);
      ParseLast(Join(ns), room);
      PlainString(Join(ns));
    }
  }

  lemma FewNames(ns: seq<Name>)
    requires |ns| <= 1 && GoodNames(ns)
    ensures Join(ns) == (if ns == [] then [] else ns[0]) && Plain(Join(ns)) && (|ns| == 1 ==> [ns[0]] == ns)
  {
  }

  /** The commas of a list. */
  function Commas(s: seq<U8>): nat {
    if s == [] then 0 else Commas(s[1..]) + if s[0] == COMMA then 1 else 0
  }

  lemma {:induction false} CommasAfter(s: seq<U8>, c: nat, i: nat)
    requires c < i <= |s| && PlainBefore(s, c) && s[c] == COMMA
    ensures Commas(s[..i]) == 1 + Commas(s[c + 1..][..i - c - 1])
    decreases c
  {
    assert s[..i][1..] == s[1..][..i - 1];
    if c > 0 {
      CommasAfter(s[1..], c - 1, i - 1);
      assert s[1..][c..] == s[c + 1..];
    }
  }

  lemma {:induction false} NoCommas(s: seq<U8>)
    requires Plain(s)
    ensures Commas(s) == 0
    decreases |s|
  {
    if s != [] { NoCommas(s[1..]); }
  }

  /** There is a zero byte before the last name that is allowed. */
  ghost predicate ZeroBefore(s: seq<U8>, room: nat) {
    exists i :: 0 <= i < |s| && s[i] == 0 && Commas(s[..i]) + 1 < room
  }

  /** A list is refused exactly for a zero byte in a name before the last that is allowed. */
  lemma {:induction false} RefusedForZero(s: seq<U8>, room: nat)
    ensures Parse(s, room) == None <==> ZeroBefore(s, room)
    decreases room
  {
    hide Commas, CString;
    if room > 1 && !Plain(s) {
      var c := FirstStop(s);
      if s[c] == 0 {
        assert Plain(s[..c]);
        NoCommas(s[..c]);
      } else {
        var t := s[c + 1..];
        RefusedForZero(t, room - 1);
        if ZeroBefore(s, room) {
          var i :| 0 <= i < |s| && s[i] == 0 && Commas(s[..i]) + 1 < room;
          CommasAfter(s, c, i);
          assert t[i - c - 1] == 0;
        }
        if ZeroBefore(t, room - 1) {
          var i :| 0 <= i < |t| && t[i] == 0 && Commas(t[..i]) + 1 < room - 1;
          CommasAfter(s, c, i + c + 1);
          assert s[i + c + 1] == 0;
        }
      }
    }
  }

  /** Printing undoes parsing for every list without a zero byte; there are at most room names, and only the last has
      commas. */
  lemma {:induction false} JoinUndoesParse(s: seq<U8>, room: nat)
    requires 0 !in s && room >= 1
    ensures var p := Parse(s, room);
            && p.Some? && 1 <= |p.value| <= room && Join(p.value) == s
            && forall i :: 0 <= i < |p.value| && (i < |p.value| - 1 || |p.value| < room) ==> Plain(p.value[i])
    decreases room
  {
    hide Commas, Join, Parse, CString;
    if room <= 1 || Plain(s) {
      NoZero(s);
      ParseLast(s, room);
      JoinsAlone(s);
    } else {
      var c := FirstStop(s);
      var t := s[c + 1..];
      JoinUndoesParse(t, room - 1);
      JoinOnto(s, c, Parse(t, room - 1).value);
      ParseOne(s, room);
    }
  }

  lemma JoinOnto(s: seq<U8>, c: nat, rest: seq<Name>)
    requires c < |s| && s[c] == COMMA && rest != [] && Join(rest) == s[c + 1..]
    ensures Join([s[..c]] + rest) == s
  {
    var all := [s[..c]] + rest;
    assert all[1..] == rest;
    assert s == s[..c] + [COMMA] + s[c + 1..];
  }

  lemma ParseOne(s: seq<U8>, room: nat)
    requires room > 1 && !Plain(s) && s[FirstStop(s)] != 0
    ensures var c := FirstStop(s); Parse(s, room) == Prepend([s[..c]], Parse(s[c + 1..], room - 1)) && Plain(s[..c])
  {
  }

  lemma JoinsAlone(s: seq<U8>)
    ensures Join([s]) == s
  {
  }

  lemma {:induction false} NoZero(s: seq<U8>)
    requires 0 !in s
    ensures CString(s) == s
    decreases |s|
  {
    if s != [] { NoZero(s[1..]); }
  }

  // -- Matching --

  /** Whether the other side knows the better guess rule: not yet looked for, yes or no. */
  datatype Guess = Look | Yes | No

  /** kexguess2@matt.ucc.asn.au */
  const KEXGUESS2: Name := [107, 101, 120, 103, 117, 101, 115, 115, 50, 64, 109, 97, 116, 116, 46, 117, 99, 99, 46,
                            97, 115, 110, 46, 97, 117]

  /** Entries with the unusable ones left blank. */
  function Entries(local: seq<Algo>): seq<Option<Name>> {
    seq(|local|, i requires 0 <= i < |local| => if local[i].usable then Some(local[i].name) else None)
  }

  function Listed(ns: seq<Name>): seq<Option<Name>> {
    seq(|ns|, i requires 0 <= i < |ns| => Some(ns[i]))
  }

  /** The first entry of serv from j on that is the name c. */
  function Find(serv: seq<Option<Name>>, c: Option<Name>, j: nat): (r: Option<nat>)
    ensures r.Some? ==> j <= r.value < |serv| && c.Some? && serv[r.value] == c
    ensures c.Some? ==> forall l :: j <= l < (if r.Some? then r.value else |serv|) ==> serv[l] != c
    decreases |serv| - j
  {
    if j >= |serv| then None else if c.Some? && serv[j] == c then Some(j) else Find(serv, c, j + 1)
  }

  /** The first client entry from i on that the server has, and where the server has it. */
  function First(cli: seq<Option<Name>>, serv: seq<Option<Name>>, i: nat): (r: Option<(nat, nat)>)
    ensures r.Some? ==>
              i <= r.value.0 < |cli| && r.value.1 < |serv| && cli[r.value.0].Some? && serv[r.value.1] == cli[r.value.0]
    ensures forall k :: i <= k < (if r.Some? then r.value.0 else |cli|) && cli[k].Some? ==> cli[k] !in serv
    ensures r.Some? ==> forall l :: 0 <= l < r.value.1 ==> serv[l] != serv[r.value.1]
    decreases |cli| - i
  {
    if i >= |cli| then None
    else
      var j := Find(serv, cli[i], 0);
      if j.Some? then Some((i, j.value)) else First(cli, serv, i + 1)
  }

  /** Whether a match at entries i and j is the guess: the client's first choice, or under the old rule both first
      choices. */
  predicate GoodGuess(guess: Guess, match_: Option<(nat, nat)>) {
    match_.Some? && match_.value.0 == 0 && (guess == Yes || match_.value.1 == 0)
  }

  /** The nested loops of buf_match_algo. */
  method FindMatch(cli: seq<Option<Name>>, serv: seq<Option<Name>>) returns (r: Option<(nat, nat)>)
    ensures r == First(cli, serv, 0)
  {
    for i := 0 to |cli|
      invariant First(cli, serv, 0) == First(cli, serv, i)
    {
      for j := 0 to |serv|
        invariant Find(serv, cli[i], 0) == Find(serv, cli[i], j)
      {
        if serv[j].Some? && cli[i].Some? {
          if serv[j] == cli[i] { return Some((i, j)); }
        }
      }
    }
    r := None;
  }

  method NameTable(local: seq<Algo>) returns (names: seq<Option<Name>>)
    ensures names == Entries(local)
  {
    names := [];
    for i := 0 to |local|
      invariant names == Entries(local)[..i]
    {
      names := names + [if local[i].usable then Some(local[i].name) else None];
    }
  }

  /** The names of the other side's list, if it is not too long and can be parsed. */
  ghost function NamesIn(list: seq<U8>): Option<seq<Name>> {
    if |list| > MAX_PROPOSED_ALGO * (MAX_NAME_LEN + 1) then None else Parse(list, MAX_PROPOSED_ALGO)
  }

  /** The rule for the guess, found out from the first list that is matched. */
  function Looked(guess: Guess, names: Option<seq<Name>>): Guess {
    if guess == Look && names.Some? then if KEXGUESS2 in names.value then Yes else No else guess
  }

  /** The client entry and server entry that match, as one side works them out from the other's list. */
  ghost function Agreement(server: bool, list: seq<U8>, local: seq<Algo>): Option<(nat, nat)> {
    if NamesIn(list).None? then None
    else
      var theirs := Listed(NamesIn(list).value);
      if server then First(theirs, Entries(local), 0) else First(Entries(local), theirs, 0)
  }

  /** The name agreed on. */
  ghost function Pick(server: bool, list: seq<U8>, local: seq<Algo>): Option<Name> {
    var m := Agreement(server, list, local);
    if m.None? then None else Some(local[if server then m.value.1 else m.value.0].name)
  }

  /** buf_match_algo: the name of the local table that was agreed on, and whether the client's guess was right. */
  method BufMatchAlgo(server: bool, list: seq<U8>, local: seq<Algo>, guess: Guess)
    returns (r: Option<Name>, good: bool, guess1: Guess)
    ensures r == Pick(server, list, local) && guess1 == Looked(guess, NamesIn(list))
    ensures good == GoodGuess(guess1, Agreement(server, list, local))
  {
    hide Parse, First;
    r, good, guess1 := None, false, guess;
    if |list| > MAX_PROPOSED_ALGO * (MAX_NAME_LEN + 1) { return; }
    var remote := SplitList(list);
    if remote.None? { return; }
    guess1 := Looked(guess, remote);
    var mine := NameTable(local);
    var theirs := Listed(remote.value);
    var m := FindMatch(if server then theirs else mine, if server then mine else theirs);
    if m.Some? {
      good := if guess1 == Yes then m.value.0 == 0 else m.value.0 == 0 && m.value.1 == 0;
      r := Some(local[if server then m.value.1 else m.value.0].name);
    }
  }

  // -- Both sides choose the same --

  /** The first name of the client that the server also offers. */
  function Chosen(cu: seq<Name>, su: seq<Name>): Option<Name> {
    if cu == [] then None else if cu[0] in su then Some(cu[0]) else Chosen(cu[1..], su)
  }

  /** The choice of section 7.1 of RFC 4253. */
  lemma {:induction false} ChosenIs(cu: seq<Name>, su: seq<Name>, n: Name)
    ensures Chosen(cu, su) == Some(n) <==>
            n in su && exists i :: 0 <= i < |cu| && cu[i] == n && forall j :: 0 <= j < i ==> cu[j] !in su
    decreases |cu|
  {
    if cu != [] && cu[0] !in su {
      ChosenIs(cu[1..], su, n);
      if n in su && exists i :: 0 <= i < |cu| && cu[i] == n && forall j :: 0 <= j < i ==> cu[j] !in su {
        var i :| 0 <= i < |cu| && cu[i] == n && forall j :: 0 <= j < i ==> cu[j] !in su;
        assert cu[1..][i - 1] == n && forall j :: 0 <= j < i - 1 ==> cu[1..][j] == cu[j + 1];
      }
      if n in su && exists i :: 0 <= i < |cu[1..]| && cu[1..][i] == n && forall j :: 0 <= j < i ==> cu[1..][j] !in su {
        var i :| 0 <= i < |cu[1..]| && cu[1..][i] == n && forall j :: 0 <= j < i ==> cu[1..][j] !in su;
        assert cu[i + 1] == n && forall j :: 1 <= j < i + 1 ==> cu[j] == cu[1..][j - 1];
      }
    }
  }

  /** The names of entries from i on, without the blanks. */
  function NamesFrom(es: seq<Option<Name>>, i: nat): seq<Name>
    decreases |es| - i
  {
    if i >= |es| then [] else (if es[i].Some? then [es[i].value] else []) + NamesFrom(es, i + 1)
  }

  lemma {:induction false} FindIsMembership(serv: seq<Option<Name>>, c: Option<Name>, j: nat)
    ensures Find(serv, c, j).Some? <==> c.Some? && exists k :: j <= k < |serv| && serv[k] == c
    decreases |serv| - j
  {
    if j < |serv| { FindIsMembership(serv, c, j + 1); }
  }

  /** The first match is the first of the client's names that the server has. */
  lemma {:induction false} FirstIsChosen(cli: seq<Option<Name>>, serv: seq<Option<Name>>, su: seq<Name>, i: nat)
    requires forall k :: i <= k < |cli| && cli[k].Some? ==> (cli[k] in serv <==> cli[k].value in su)
    ensures var m, c := First(cli, serv, i), Chosen(NamesFrom(cli, i), su);
            (m.None? <==> c.None?) && (m.Some? ==> cli[m.value.0] == c && serv[m.value.1] == c)
    decreases |cli| - i
  {
    if i < |cli| {
      FindIsMembership(serv, cli[i], 0);
      FirstIsChosen(cli, serv, su, i + 1);
      if cli[i].Some? {
        var rest := NamesFrom(cli, i + 1);
        assert ([cli[i].value] + rest)[1..] == rest;
        assert cli[i] in serv <==> exists k :: 0 <= k < |serv| && serv[k] == cli[i];
      } else {
        assert [] + NamesFrom(cli, i + 1) == NamesFrom(cli, i + 1);
      }
    }
  }

  lemma {:induction false} NamesOfEntries(local: seq<Algo>, i: nat)
    requires i <= |local|
    ensures NamesFrom(Entries(local), i) == Usable(local[i..])
    decreases |local| - i
  {
    if i < |local| {
      NamesOfEntries(local, i + 1);
      assert local[i..][1..] == local[i + 1..];
    } else {
      assert local[i..] == [];
    }
  }

  lemma {:induction false} NamesOfListed(ns: seq<Name>, i: nat)
    requires i <= |ns|
    ensures NamesFrom(Listed(ns), i) == ns[i..]
    decreases |ns| - i
  {
    if i < |ns| { NamesOfListed(ns, i + 1); }
  }

  lemma {:induction false} EntriesHold(local: seq<Algo>, n: Name)
    ensures Some(n) in Entries(local) <==> n in Usable(local)
    decreases |local|
  {
    if local != [] {
      EntriesHold(local[1..], n);
      assert Entries(local)[1..] == Entries(local[1..]);
      assert Entries(local) == [Entries(local)[0]] + Entries(local[1..]);
    }
  }

  lemma ListedHold(ns: seq<Name>, n: Name)
    ensures Some(n) in Listed(ns) <==> n in ns
  {
    if n in ns {
      var i :| 0 <= i < |ns| && ns[i] == n;
      assert Listed(ns)[i] == Some(n);
    }
  }

  /** A table as it is printed. */
  function Print(local: seq<Algo>): seq<U8> { Join(Usable(local)) }

  /** A table that can be printed and parsed. */
  predicate GoodTable(local: seq<Algo>) {
    && |local| <= MAX_PROPOSED_ALGO && |Print(local)| <= ALGOLIST_SIZE
    && forall i :: 0 <= i < |local| ==> GoodName(local[i].name)
  }

  lemma {:induction false} UsableGood(local: seq<Algo>)
    requires forall i :: 0 <= i < |local| ==> GoodName(local[i].name)
    ensures GoodNames(Usable(local)) && |Usable(local)| <= |local|
    decreases |local|
  {
    if local != [] { UsableGood(local[1..]); }
  }

  /** What the other side reads from a printed table: its usable names, or one empty name. */
  lemma Reads(local: seq<Algo>, n: Name)
    requires GoodTable(local)
    ensures NamesIn(Print(local)) == Some(if Usable(local) == [] then [[]] else Usable(local))
    ensures n != [] ==> (Some(n) in Listed(NamesIn(Print(local)).value) <==> n in Usable(local))
  {
    hide Parse, Join;
    UsableGood(local);
    ParseUndoesJoin(Usable(local), MAX_PROPOSED_ALGO);
    ListedHold(NamesIn(Print(local)).value, n);
  }

  predicate FirstUsable(local: seq<Algo>) { local != [] && local[0].usable }

  lemma FirstOfUsable(local: seq<Algo>)
    requires FirstUsable(local)
    ensures Usable(local) != [] && Usable(local)[0] == local[0].name
  {
  }

  /** The first usable name of the client is one that the server offers, or under the old rule offers first. */
  predicate Meets(lc: seq<Algo>, ls: seq<Algo>, better: bool) {
    && Usable(lc) != [] && Usable(ls) != []
    && if better then Usable(lc)[0] in Usable(ls) else Usable(lc)[0] == Usable(ls)[0]
  }

  function Rule(better: bool): Guess { if better then Yes else No }

  /** The client's search comes out at the first of its usable names that the server offers; it takes its guess for
      right if the first names meet and its first entry is usable. */
  lemma ClientChooses(lc: seq<Algo>, ls: seq<Algo>, better: bool)
    requires GoodTable(lc) && GoodTable(ls)
    ensures Pick(false, Print(ls), lc) == Chosen(Usable(lc), Usable(ls))
    ensures GoodGuess(Rule(better), Agreement(false, Print(ls), lc)) <==> Meets(lc, ls, better) && FirstUsable(lc)
  {
    hide NamesIn, Print, Usable;
    Reads(ls, []);
    UsableGood(ls);
    var cli, serv := Entries(lc), Listed(NamesIn(Print(ls)).value);
    forall k | 0 <= k < |cli| && cli[k].Some? ensures cli[k] in serv <==> cli[k].value in Usable(ls) {
      Reads(ls, cli[k].value);
    }
    FirstIsChosen(cli, serv, Usable(ls), 0);
    NamesOfEntries(lc, 0);
    assert lc[0..] == lc;
    if cli != [] { FindIsMembership(serv, cli[0], 0); }
    if FirstUsable(lc) { FirstOfUsable(lc); }
  }

  /** And so does the server's; under the old rule it takes the guess for right if its own first entry is usable. */
  lemma ServerChooses(lc: seq<Algo>, ls: seq<Algo>, better: bool)
    requires GoodTable(lc) && GoodTable(ls)
    ensures Pick(true, Print(lc), ls) == Chosen(Usable(lc), Usable(ls))
    ensures GoodGuess(Rule(better), Agreement(true, Print(lc), ls)) <==>
            Meets(lc, ls, better) && (better || FirstUsable(ls))
  {
    hide NamesIn, Print, Usable;
    Reads(lc, []);
    UsableGood(ls);
    var ns := NamesIn(Print(lc)).value;
    var cli, serv := Listed(ns), Entries(ls);
    forall k | 0 <= k < |cli| ensures cli[k] in serv <==> cli[k].value in Usable(ls) {
      EntriesHold(ls, cli[k].value);
    }
    FirstIsChosen(cli, serv, Usable(ls), 0);
    NamesOfListed(ns, 0);
    assert ns[0..] == ns;
    FindIsMembership(serv, cli[0], 0);
    EmptyNameNotChosen(Usable(ls));
    if FirstUsable(ls) { FirstOfUsable(ls); }
  }

  lemma EmptyNameNotChosen(su: seq<Name>)
    requires GoodNames(su)
    ensures Chosen([[]], su) == None && Chosen([], su) == None && [] !in su
  {
    assert Chosen([[]][1..], su) == None;
  }
}
