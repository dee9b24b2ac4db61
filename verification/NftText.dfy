/** The text of the split-tunnel expressions, and reading it back. */
module NftText {
  import opened Text
  import opened Nft

  // --- Writing ---

  function FamilyWord(v6: bool): string { if v6 then "ip6" else "ip" }

  function MatchWords(m: Match): seq<string>
  {
    match m
    case Cgroup(same, classid) => ["meta", "cgroup"] + (if same then [] else ["!="]) + [classid]
    case Source(range) => [FamilyWord(range.v6), "saddr", range.text]
    case Destination(range) => [FamilyWord(range.v6), "daddr", range.text]
    case OutInterface(name) => ["oifname", "\"" + name + "\""]
  }

  function ActWords(act: Act): seq<string>
  {
    match act
    case Accept => ["accept"]
    case Masquerade => ["masquerade"]
    case SetMark(mark) => ["meta", "mark", "set", mark]
    case RestoreMark => ["meta", "mark", "set", "ct", "mark"]
    case SetConnMark(mark) => ["ct", "mark", "set", mark]
  }

  function AllMatchWords(ms: seq<Match>): seq<string>
  {
    if ms == [] then [] else MatchWords(ms[0]) + AllMatchWords(ms[1..])
  }

  /** The text handed to nftables. */
  function ExprText(ms: seq<Match>, act: Act): string { Join(AllMatchWords(ms) + ActWords(act)) }

  // --- Reading ---

  /** A match as its text gives it. */
  datatype Read = CgroupIs(same: bool, classid: string) | From(v6: bool, text: string) | To(v6: bool, text: string)
                | Leaves(name: string)

  function ReadAct(ws: seq<string>): Option<Act>
  {
    if ws == ["accept"] then Some(Accept)
    else if ws == ["masquerade"] then Some(Masquerade)
    else if ws == ["meta", "mark", "set", "ct", "mark"] then Some(RestoreMark)
    else if |ws| == 4 && ws[..3] == ["meta", "mark", "set"] then Some(SetMark(ws[3]))
    else if |ws| == 4 && ws[..3] == ["ct", "mark", "set"] then Some(SetConnMark(ws[3]))
    else None
  }

  /** The match at the head of the words, and how many words it takes; 0 if none stands there. */
  function ReadMatch(ws: seq<string>): (Read, nat)
  {
    if |ws| >= 4 && ws[..3] == ["meta", "cgroup", "!="] then (CgroupIs(false, ws[3]), 4)
    else if |ws| >= 3 && ws[..2] == ["meta", "cgroup"] then (CgroupIs(true, ws[2]), 3)
    else if |ws| >= 3 && ws[0] in {"ip", "ip6"} && ws[1] == "saddr" then (From(ws[0] == "ip6", ws[2]), 3)
    else if |ws| >= 3 && ws[0] in {"ip", "ip6"} && ws[1] == "daddr" then (To(ws[0] == "ip6", ws[2]), 3)
    else if |ws| >= 2 && ws[0] == "oifname" && |ws[1]| >= 2 && ws[1][0] == '"' && ws[1][|ws[1]| - 1] == '"' then
      (Leaves(ws[1][1..|ws[1]| - 1]), 2)
    else (Leaves(""), 0)
  }

  function ReadExpr(ws: seq<string>): Option<(seq<Read>, Act)>
    decreases |ws|
  {
    var (m, n) := ReadMatch(ws);
    if n == 0 then
      var act := ReadAct(ws);
      if act.None? then None else Some(([], act.value))
    else
      var rest := ReadExpr(ws[n..]);
      if rest.None? then None else Some(([m] + rest.value.0, rest.value.1))
  }

  // --- What was written is read back ---

  function ReadOf(m: Match): Read
  {
    match m
    case Cgroup(same, classid) => CgroupIs(same, classid)
    case Source(range) => From(range.v6, range.text)
    case Destination(range) => To(range.v6, range.text)
    case OutInterface(name) => Leaves(name)
  }

  function ReadsOf(ms: seq<Match>): seq<Read> { if ms == [] then [] else [ReadOf(ms[0])] + ReadsOf(ms[1..]) }

  predicate WritableMatch(m: Match)
  {
    match m
    case Cgroup(_, classid) => IsWord(classid) && classid != "!="
    case Source(range) => IsWord(range.text)
    case Destination(range) => IsWord(range.text)
    case OutInterface(name) => IsWord(name)
  }

  predicate WritableAct(act: Act)
  {
    (act.SetMark? ==> IsWord(act.mark)) && (act.SetConnMark? ==> IsWord(act.mark))
  }

  lemma MatchRead(m: Match, rest: seq<string>)
    requires WritableMatch(m)
    ensures ReadMatch(MatchWords(m) + rest) == (ReadOf(m), |MatchWords(m)|)
    ensures forall w :: w in MatchWords(m) ==> IsWord(w)
  {
    var ws := MatchWords(m) + rest;
    match m
    case Cgroup(same, classid) =>
      assert ws[..2] == ["meta", "cgroup"] && ws[2] == if same then classid else "!=";
      assert !same ==> ws[..3] == ["meta", "cgroup", "!="] && ws[3] == classid;
      assert same && |ws| >= 3 ==> ws[..3][2] == classid;
    case Source(range) =>
      assert ws[0] == FamilyWord(range.v6) && ws[1] == "saddr" && ws[2] == range.text;
      assert ws[..2][0] == ws[0] && ws[..3][0] == ws[0];
    case Destination(range) =>
      assert ws[0] == FamilyWord(range.v6) && ws[1] == "daddr" && ws[2] == range.text;
      assert ws[..2][0] == ws[0] && ws[..3][0] == ws[0];
    case OutInterface(name) =>
      var quoted := "\"" + name + "\"";
      assert ws[0] == "oifname" && ws[1] == quoted && quoted[1..|quoted| - 1] == name;
      assert ws[..2][0] == ws[0] && (|ws| >= 3 ==> ws[..3][0] == ws[0]);
  }

  lemma ActRead(act: Act)
    requires WritableAct(act)
    ensures ReadExpr(ActWords(act)) == Some(([], act))
    ensures forall w :: w in ActWords(act) ==> IsWord(w)
  {
    var ws := ActWords(act);
    assert |ws| >= 4 ==> ws[..3] == [ws[0], ws[1], ws[2]] && ws[..2] == [ws[0], ws[1]];
    assert ReadMatch(ws).1 == 0;
  }

  lemma {:induction false} ExprRead(ms: seq<Match>, act: Act)
    requires WritableAct(act) && forall m :: m in ms ==> WritableMatch(m)
    ensures ReadExpr(AllMatchWords(ms) + ActWords(act)) == Some((ReadsOf(ms), act))
    ensures forall w :: w in AllMatchWords(ms) + ActWords(act) ==> IsWord(w)
  {
    hide MatchWords, ActWords, ReadMatch, ReadOf, IsWord, ReadAct, WritableMatch, WritableAct;
    ActRead(act);
    if ms == [] {
      assert AllMatchWords(ms) + ActWords(act) == ActWords(act);
    } else {
      var rest := AllMatchWords(ms[1..]) + ActWords(act);
      var ws := MatchWords(ms[0]) + rest;
      assert ms[0] in ms;
      MatchRead(ms[0], rest);
      ExprRead(ms[1..], act);
      assert AllMatchWords(ms) + ActWords(act) == ws;
      assert ws[|MatchWords(ms[0])|..] == rest;
      SomeWords(ms[0]);
    }
  }

  lemma SomeWords(m: Match)
    ensures MatchWords(m) != []
  {
  }

  /** Every expression is written so that its text gives the same tests, with the same ends and families, and the same
      statement. */
  lemma TextIsRead(ms: seq<Match>, act: Act)
    requires WritableAct(act) && forall m :: m in ms ==> WritableMatch(m)
    ensures ReadExpr(Split(ExprText(ms, act))) == Some((ReadsOf(ms), act))
  {
    hide Join, Split, ReadExpr, AllMatchWords, ActWords, WritableMatch, WritableAct, IsWord;
    ExprRead(ms, act);
    SplitJoin(AllMatchWords(ms) + ActWords(act));
  }
}
