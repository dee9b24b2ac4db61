/** Reading the text of a rule the way pf's grammar does: the words of what was written give the rule back, and the
    text of a range gives its bounds. */
module PfText {
  import opened Text
  import opened PfRules

  // --- Reading a rule ---

  /** What a rule is about, in pf's words. */
  datatype What = Hosts(v6: bool, remote: string) | Types(types: seq<string>) | Port(port: string)

  datatype Meaning = Meaning(
    action: Action, dir: Dir, iface: Option<string>, what: What, group: Option<Group>, anyFlags: bool, noState: bool)

  /** The options behind the packet description. */
  function ReadOptions(ws: seq<string>, m: Meaning): Option<Meaning>
    decreases |ws|
  {
    if ws == [] then Some(m)
    else if |ws| < 2 then None
    else if ws[0] == "group" && ws[1] == "0" then ReadOptions(ws[2..], m.(group := Some(Wheel)))
    else if ws[0] == "group" && ws[1] == "windscribe" then ReadOptions(ws[2..], m.(group := Some(Windscribe)))
    else if ws[0] == "flags" && ws[1] == "any" then ReadOptions(ws[2..], m.(anyFlags := true))
    else if ws[0] == "no" && ws[1] == "state" then ReadOptions(ws[2..], m.(noState := true))
    else None
  }

  /** A list of types up to the closing brace: the types, and where the list ends. */
  function ReadTypes(ws: seq<string>): Option<(seq<string>, seq<string>)>
    decreases |ws|
  {
    if ws == [] then None
    else if ws[0] == "}" then Some(([], ws[1..]))
    else
      var last := if ws[0] != "" && ws[0][|ws[0]| - 1] == ',' then |ws[0]| - 1 else |ws[0]|;
      var rest := ReadTypes(ws[1..]);
      if rest.None? then None else Some(([ws[0][..last]] + rest.value.0, rest.value.1))
  }

  /** `from <source> to <destination>`: the remote end is the destination of what goes out, the source of what comes
      in; the other end has to be `any`. */
  function ReadHosts(ws: seq<string>, m: Meaning, v6: bool): Option<Meaning>
  {
    if |ws| < 4 || ws[0] != "from" || ws[2] != "to" then None
    else if m.dir.Out? && ws[1] == "any" then ReadOptions(ws[4..], m.(what := Hosts(v6, ws[3])))
    else if m.dir.In? && ws[3] == "any" then ReadOptions(ws[4..], m.(what := Hosts(v6, ws[1])))
    else None
  }

  function ReadTarget(ws: seq<string>, m: Meaning): Option<Meaning>
  {
    if |ws| >= 9 && ws[..8] == ["proto", "tcp", "from", "any", "to", "any", "port", "="] then
      ReadOptions(ws[9..], m.(what := Port(ws[8])))
    else if ws == [] || (ws[0] != "inet" && ws[0] != "inet6") then None
    else if |ws| >= 5 && ws[..5] == ["inet6", "proto", "icmp6", "icmp6-type", "{"] then
      var types := ReadTypes(ws[5..]);
      if types.None? then None else ReadOptions(types.value.1, m.(what := Types(types.value.0)))
    else ReadHosts(ws[1..], m, ws[0] == "inet6")
  }

  /** `pass|block in|out quick [on <interface>] ...` */
  function ReadRule(ws: seq<string>): Option<Meaning>
  {
    if |ws| < 5 || (ws[0] != "pass" && ws[0] != "block") || (ws[1] != "out" && ws[1] != "in") || ws[2] != "quick" then
      None
    else
      var m := Meaning(if ws[0] == "pass" then Pass else Block, if ws[1] == "out" then Out else In, None, Port(""),
                       None, false, false);
      if ws[3] == "on" then ReadTarget(ws[5..], m.(iface := Some(ws[4]))) else ReadTarget(ws[3..], m)
  }

  // --- What was written is read back ---

  function TypeTexts(types: seq<nat>): seq<string>
  {
    if types == [] then [] else [Decimal(types[0])] + TypeTexts(types[1..])
  }

  function WhatOf(t: Target): What
  {
    match t
    case Remote(range) => Hosts(range.v6, range.text)
    case Icmp6(types) => Types(TypeTexts(types))
    case Anyone(v6) => Hosts(v6, "any")
    case TcpPort(port) => Port(Decimal(port))
  }

  function MeaningOf(r: Rule): Meaning
  {
    Meaning(r.action, r.dir, r.iface, WhatOf(r.target), r.group, r.anyFlags, r.noState)
  }

  /** Interface names and range texts are single words, and only the two groups the rules name are written. */
  predicate Writable(r: Rule)
  {
    && (r.iface.Some? ==> IsWord(r.iface.value)) && (r.target.Remote? ==> IsWord(r.target.range.text))
    && r.group != Some(OtherGroup)
  }

  function OptionWords(r: Rule): seq<string>
  {
    (if r.group.Some? then ["group", GroupWord(r.group.value)] else []) +
    (if r.anyFlags then ["flags", "any"] else []) +
    (if r.noState then ["no", "state"] else [])
  }

  lemma OptionsRead(r: Rule, m: Meaning)
    requires m.group.None? && !m.anyFlags && !m.noState && r.group != Some(OtherGroup)
    ensures ReadOptions(OptionWords(r), m) == Some(m.(group := r.group, anyFlags := r.anyFlags, noState := r.noState))
  {
    var g := if r.group.Some? then ["group", GroupWord(r.group.value)] else [];
    var f := if r.anyFlags then ["flags", "any"] else [];
    var n := if r.noState then ["no", "state"] else [];
    var m1 := m.(group := r.group);
    var m2 := m1.(anyFlags := r.anyFlags);
    assert OptionWords(r) == g + (f + n);
    assert g != [] ==> (g + (f + n))[2..] == f + n;
    assert f != [] ==> (f + n)[2..] == n;
    assert n != [] ==> n[2..] == [];
    assert ReadOptions(n, m2) == Some(m2.(noState := r.noState));
    assert ReadOptions(f + n, m1) == ReadOptions(n, m2);
  }

  lemma {:induction false} DecimalDigits(n: nat)
    ensures forall c :: c in Decimal(n) ==> '0' <= c <= '9'
  {
    if n >= 10 {
      DecimalDigits(n / 10);
    }
  }

  lemma {:induction false} TypesRead(types: seq<nat>, rest: seq<string>)
    ensures ReadTypes(TypeWords(types) + ["}"] + rest) == Some((TypeTexts(types), rest))
    ensures forall w :: w in TypeWords(types) ==> IsWord(w)
  {
    hide Decimal;
    var ws := TypeWords(types) + ["}"] + rest;
    if types == [] {
      assert ws == ["}"] + rest;
    } else {
      var t := Decimal(types[0]);
      DecimalDigits(types[0]);
      TypesRead(types[1..], rest);
      assert ws[1..] == TypeWords(types[1..]) + ["}"] + rest;
      assert t[|t| - 1] in t;
      assert (t + ",")[..|t|] == t && t[..|t|] == t;
    }
  }

  lemma TargetRead(t: Target, options: seq<string>, m: Meaning)
    ensures ReadTarget(TargetWords(t, m.dir) + options, m) == ReadOptions(options, m.(what := WhatOf(t)))
  {
    hide ReadOptions, Decimal, TypeWords, ReadTypes, TypeTexts;
    var ws := TargetWords(t, m.dir) + options;
    match t
    case Icmp6(types) =>
      TypesRead(types, options);
      assert ws[5..] == TypeWords(types) + ["}"] + options;
      assert ws[..5] == ["inet6", "proto", "icmp6", "icmp6-type", "{"];
      assert ws[0] == "inet6";
    case Remote(range) =>
      assert ws[1..][4..] == options;
      assert ws[0] == FamilyWord(range.v6) && ws[1] == "from";
    case Anyone(v6) =>
      assert ws[1..][4..] == options;
      assert ws[0] == FamilyWord(v6) && ws[1] == "from";
    case TcpPort(port) =>
      assert ws[9..] == options;
      assert ws[..8] == ["proto", "tcp", "from", "any", "to", "any", "port", "="];
  }

  lemma RuleRead(r: Rule)
    requires r.group != Some(OtherGroup)
    ensures ReadRule(RuleWords(r)) == Some(MeaningOf(r))
  {
    hide ReadTarget, ReadOptions, TargetWords, WhatOf, GroupWord, OptionWords, RuleWords, ReadRule;
    var m := Meaning(r.action, r.dir, r.iface, Port(""), None, false, false);
    HeadRead(r, m);
    TargetRead(r.target, OptionWords(r), m);
    OptionsRead(r, m.(what := WhatOf(r.target)));
  }

  lemma HeadRead(r: Rule, m: Meaning)
    requires m == Meaning(r.action, r.dir, r.iface, Port(""), None, false, false)
    ensures ReadRule(RuleWords(r)) == ReadTarget(TargetWords(r.target, r.dir) + OptionWords(r), m)
  {
    hide ReadTarget, TargetWords, OptionWords, GroupWord;
    var ws, target := RuleWords(r), TargetWords(r.target, r.dir) + OptionWords(r);
    var head := [if r.action.Pass? then "pass" else "block", if r.dir.Out? then "out" else "in", "quick"] +
                (if r.iface.Some? then ["on", r.iface.value] else []);
    assert ws == head + target by { RestOfRule(r); }
    TargetLength(r.target, r.dir);
    assert ws[|head|..] == target;
  }

  lemma RestOfRule(r: Rule)
    ensures RuleWords(r) ==
      [if r.action.Pass? then "pass" else "block", if r.dir.Out? then "out" else "in", "quick"] +
      (if r.iface.Some? then ["on", r.iface.value] else []) + (TargetWords(r.target, r.dir) + OptionWords(r))
  {
    hide TargetWords, GroupWord;
  }

  lemma TargetLength(t: Target, dir: Dir)
    ensures |TargetWords(t, dir)| >= 5 && TargetWords(t, dir)[0] != "on"
  {
  }

  /** Every rule is written so that reading the text gives the same action, direction, interface, family, remote range
      or types or port, group and state options. */
  lemma RenderIsRead(r: Rule)
    requires Writable(r)
    ensures ReadRule(Split(Render(r))) == Some(MeaningOf(r))
  {
    hide Join, Split, ReadRule, MeaningOf;
    RuleRead(r);
    WordsOfRule(r);
    SplitJoin(RuleWords(r));
  }

  lemma WordsOfRule(r: Rule)
    requires Writable(r)
    ensures forall w :: w in RuleWords(r) ==> IsWord(w)
  {
    hide TargetWords, IsWord, RuleWords, OptionWords;
    WordsOfTarget(r.target, r.dir);
    RestOfRule(r);
    FixedWords(r);
  }

  lemma FixedWords(r: Rule)
    ensures IsWord("pass") && IsWord("block") && IsWord("out") && IsWord("in") && IsWord("quick") && IsWord("on")
    ensures forall w :: w in OptionWords(r) ==> IsWord(w)
  {
  }

  lemma WordsOfTarget(t: Target, dir: Dir)
    requires t.Remote? ==> IsWord(t.range.text)
    ensures forall w :: w in TargetWords(t, dir) ==> IsWord(w)
  {
    hide Decimal, TypeWords;
    match t
    case Icmp6(types) => TypesRead(types, []);
    case TcpPort(port) => DecimalDigits(port);
    case Remote(_) =>
    case Anyone(_) =>
  }

  // --- Ranges ---

  function PowerOfTwo(n: nat): nat { if n == 0 then 1 else 2 * PowerOfTwo(n - 1) }

  function Dotted(a: nat, b: nat, c: nat, d: nat): string
  {
    Decimal(a) + "." + Decimal(b) + "." + Decimal(c) + "." + Decimal(d)
  }

  /** The text is an address in dotted form and a prefix length; the bounds begin at that address and hold as many
      addresses as the prefix leaves. */
  predicate Agrees4(r: Range, a: nat, b: nat, c: nat, d: nat, length: nat)
  {
    && !r.v6 && r.text == Dotted(a, b, c, d) + "/" + Decimal(length)
    && r.lo == a * 0x100_0000 + b * 0x1_0000 + c * 0x100 + d
    && (r.hi + 1 - r.lo) * PowerOfTwo(length) == 0x1_0000_0000
  }

  function HexDigit(d: nat): char
    requires d < 16
  {
    if d < 10 then Digit(d) else ('a' as int + d - 10) as char
  }

  function Hex(n: nat): string { if n < 16 then [HexDigit(n)] else Hex(n / 16) + [HexDigit(n % 16)] }

  /** The text is the first group in hexadecimal, zeros and a prefix length, and the bounds are those of that prefix. */
  predicate Agrees6(r: Range, group: nat, length: nat)
  {
    && r.v6 && r.text == Hex(group) + "::/" + Decimal(length) && r.lo == group * 0x1_0000_0000_0000_0000_0000_0000_0000
    && (r.hi + 1 - r.lo) * PowerOfTwo(length) == 0x1_0000_0000_0000_0000_0000_0000_0000_0000
  }

  lemma Powers()
    ensures PowerOfTwo(4) == 0x10 && PowerOfTwo(8) == 0x100 && PowerOfTwo(12) == 0x1000
    ensures PowerOfTwo(16) == 0x1_0000 && PowerOfTwo(24) == 0x100_0000
  {
    assert PowerOfTwo(8) == 16 * PowerOfTwo(4) && PowerOfTwo(12) == 16 * PowerOfTwo(8);
    assert PowerOfTwo(16) == 16 * PowerOfTwo(12) && PowerOfTwo(20) == 16 * PowerOfTwo(16);
    assert PowerOfTwo(24) == 16 * PowerOfTwo(20);
  }

  /** Every range the rules name covers what its text says. */
  lemma RangesAgree()
    ensures Agrees4(LOOPBACK4, 127, 0, 0, 0, 8) && Agrees4(NET192, 192, 168, 0, 0, 16)
    ensures Agrees4(NET172, 172, 16, 0, 0, 12) && Agrees4(LINK_LOCAL4, 169, 254, 0, 0, 16)
    ensures Agrees4(RESERVED, 10, 255, 255, 0, 24) && Agrees4(NET10, 10, 0, 0, 0, 8)
    ensures Agrees4(MULTICAST4, 224, 0, 0, 0, 4)
    ensures Agrees6(LINK_LOCAL6, 0xfe80, 10) && Agrees6(MULTICAST6, 0xff00, 8) && Agrees6(ULA, 0xfc00, 7)
    ensures LOOPBACK6.text == "::" + Hex(LOOPBACK6.lo) && LOOPBACK6.hi == LOOPBACK6.lo
  {
    hide PowerOfTwo, Hex, Decimal;
    Powers();
    Texts4();
    MoreTexts4();
    LastTexts4();
    V6Ranges();
  }

  lemma Texts4()
    ensures LOOPBACK4.text == Dotted(127, 0, 0, 0) + "/" + Decimal(8)
    ensures NET192.text == Dotted(192, 168, 0, 0) + "/" + Decimal(16)
    ensures NET172.text == Dotted(172, 16, 0, 0) + "/" + Decimal(12)
  {
  }

  lemma MoreTexts4()
    ensures LINK_LOCAL4.text == Dotted(169, 254, 0, 0) + "/" + Decimal(16)
    ensures RESERVED.text == Dotted(10, 255, 255, 0) + "/" + Decimal(24)
  {
  }

  lemma LastTexts4()
    ensures NET10.text == Dotted(10, 0, 0, 0) + "/" + Decimal(8)
    ensures MULTICAST4.text == Dotted(224, 0, 0, 0) + "/" + Decimal(4)
  {
  }

  lemma V6Ranges()
    ensures Agrees6(LINK_LOCAL6, 0xfe80, 10) && Agrees6(MULTICAST6, 0xff00, 8) && Agrees6(ULA, 0xfc00, 7)
    ensures LOOPBACK6.text == "::" + Hex(LOOPBACK6.lo) && LOOPBACK6.hi == LOOPBACK6.lo
  {
  }
}
