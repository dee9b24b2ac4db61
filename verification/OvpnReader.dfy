/** The OpenVPN reader the filter guards against, and what the filter guarantees about it:
    no line the reader takes for an option escapes the whitelist, filtering is idempotent, and inline blocks
    come through whole. */
module OvpnReader {
  import opened Text
  import opened OvpnDirectives
  import opened OvpnFilter

  // --- The fixed-buffer line reader ---

  function Chomp(chunk: string): string
  {
    if chunk != "" && chunk[|chunk| - 1] == '\n' then chunk[..|chunk| - 1] else chunk
  }

  /** Reads of at most `room` bytes, each ending at a newline when one is in reach. */
  function ChunkLines(s: string, room: nat): seq<string>
    requires room > 0
  {
    if s == "" then []
    else
      var i := SkipWhile(NotNewline, s, 0);
      var whole := if i < |s| then i + 1 else i;
      var n := if whole <= room then whole else room;
      [Chomp(s[..n])] + ChunkLines(s[n..], room)
  }

  /** fgets into a buffer of OPTION_LINE_SIZE bytes leaves one byte for the terminator. */
  const ROOM: nat := OPTION_LINE_SIZE - 1

  function ReaderLines(s: string): seq<string> { ChunkLines(s, ROOM) }

  /** Every terminated line, with its newline, and the last line, without one, fit one read. */
  predicate Fits(s: string, room: nat)
  {
    if s == "" then true
    else
      var i := SkipWhile(NotNewline, s, 0);
      if i == |s| then |s| <= room else i + 1 <= room && Fits(s[i + 1..], room)
  }

  lemma {:induction false} ChunksWhenFits(s: string, room: nat)
    requires room > 0 && Fits(s, room)
    ensures ChunkLines(s, room) == Lines(s)
  {
    if s != "" {
      var i := SkipWhile(NotNewline, s, 0);
      if i == |s| {
        assert s[..|s|] == s && s[|s|..] == "";
      } else {
        assert s[..i + 1][..i] == s[..i];
        ChunksWhenFits(s[i + 1..], room);
      }
    }
  }

  lemma LineCount(s: string)
    requires s != ""
    ensures var i := SkipWhile(NotNewline, s, 0); |Lines(s)| == if i < |s| then 1 + |Lines(s[i + 1..])| else 1
  {
    hide SkipWhile;
    var i := SkipWhile(NotNewline, s, 0);
    if i < |s| {
      assert Lines(s) == [s[..i]] + Lines(s[i + 1..]);
    } else {
      assert Lines(s) == [s];
    }
  }

  /** Cutting a long line short of its end does not change the number of lines. */
  lemma CutInsideLine(s: string, n: nat)
    requires 0 < n < SkipWhile(NotNewline, s, 0) + (if SkipWhile(NotNewline, s, 0) < |s| then 1 else 0)
    ensures |Lines(s[n..])| == |Lines(s)|
  {
    hide SkipWhile, Lines;
    var i := SkipWhile(NotNewline, s, 0);
    var t := s[n..];
    SkipUnique(NotNewline, t, 0, i - n);
    LineCount(s);
    LineCount(t);
    if i < |s| {
      assert t[i - n + 1..] == s[i + 1..];
    }
  }

  lemma OneChunk(s: string, room: nat)
    requires room > 0 && s != ""
    ensures var i := SkipWhile(NotNewline, s, 0);
      var whole := if i < |s| then i + 1 else i;
      |ChunkLines(s, room)| == 1 + |ChunkLines(s[if whole <= room then whole else room..], room)|
  {
  }

  /** An extra read is needed for every piece of a line that does not fit. */
  lemma {:induction false} ChunkCount(s: string, room: nat)
    requires room > 0
    ensures |ChunkLines(s, room)| >= |Lines(s)|
    ensures !Fits(s, room) ==> |ChunkLines(s, room)| > |Lines(s)|
    decreases |s|
  {
    if s != "" {
      hide SkipWhile, ChunkLines;
      var i := SkipWhile(NotNewline, s, 0);
      var whole := if i < |s| then i + 1 else i;
      OneChunk(s, room);
      if whole > room {
        CutInsideLine(s, room);
        ChunkCount(s[room..], room);
      } else {
        ChunkCount(s[whole..], room);
        if i == |s| {
          assert s[whole..] == "";
        } else {
          assert |Lines(s)| == 1 + |Lines(s[whole..])|;
        }
      }
    }
  }

  /** The two readers see the same lines exactly when every line fits one read. */
  lemma ReadersAgreeIff(s: string)
    ensures ReaderLines(s) == Lines(s) <==> Fits(s, ROOM)
  {
    ChunkCount(s, ROOM);
    if Fits(s, ROOM) {
      ChunksWhenFits(s, ROOM);
    }
  }

  lemma {:induction false} NotOverlongFits(s: string)
    requires forall l :: l in Lines(s) ==> |l| <= MAX_LINE
    ensures Fits(s, ROOM)
  {
    if s != "" {
      var i := SkipWhile(NotNewline, s, 0);
      if i < |s| {
        assert s[..i] in Lines(s);
        NotOverlongFits(s[i + 1..]);
      } else {
        assert s in Lines(s);
      }
    }
  }

  /** The length limit is exact for terminated lines: one byte more and the line is split. */
  lemma LimitIsTight(line: string)
    requires '\n' !in line
    ensures ReaderLines(line + "\n") == Lines(line + "\n") <==> |line| <= MAX_LINE
  {
    var s := line + "\n";
    forall k | 0 <= k < |line| ensures NotNewline(s[k]) {
      assert s[k] == line[k] && line[k] in line;
    }
    SkipUnique(NotNewline, s, 0, |line|);
    assert s[|line| + 1..] == "";
    ReadersAgreeIff(s);
  }

  // --- The reader's view of options and inline blocks ---

  datatype Reader = Top | In(name: string)

  /** A lone word `<name>` opens the block `name`. */
  predicate IsLoneTag(words: seq<string>)
  {
    |words| == 1 && |words[0]| >= 2 && words[0][0] == '<' && words[0][|words[0]| - 1] == '>'
  }

  /** At the top level a lone tag opens a block; a block ends at the case-exact prefix of its closer. */
  function ReaderStep(r: Reader, line: string): Reader
  {
    match r
    case Top =>
      var words := Words(line);
      if IsLoneTag(words) then In(words[0][1..|words[0]| - 1]) else Top
    case In(name) =>
      if StartsWith(line[SkipWhile(IsSpace, line, 0)..], "</" + name + ">") then Top else r
  }

  /** The reader's state before each line. */
  function ReaderRun(r: Reader, ls: seq<string>): Reader
    decreases |ls|
  {
    if ls == [] then r else ReaderRun(ReaderStep(r, ls[0]), ls[1..])
  }

  /** Every line met at the top level is one the filter allows outside inline blocks. */
  predicate OnlyAllowedAtTop(v: Validators, ls: seq<string>, r: Reader)
    decreases |ls|
  {
    if ls == [] then true
    else (r.Top? ==> AllowedOutside(v, ls[0])) && OnlyAllowedAtTop(v, ls[1..], ReaderStep(r, ls[0]))
  }

  lemma {:induction false} OnlyAllowedAtTopMeans(v: Validators, ls: seq<string>, r: Reader, k: nat)
    requires OnlyAllowedAtTop(v, ls, r) && k < |ls|
    ensures ReaderRun(r, ls[..k]).Top? ==> AllowedOutside(v, ls[k])
  {
    if k > 0 {
      assert ls[..k][0] == ls[0] && ls[..k][1..] == ls[1..][..k - 1];
      OnlyAllowedAtTopMeans(v, ls[1..], ReaderStep(r, ls[0]), k - 1);
    }
  }

  // --- Configs whose carriage returns only end lines ---

  predicate CrOnlyBeforeLf(config: string)
  {
    forall i :: 0 <= i < |config| && config[i] == '\r' ==> i + 1 < |config| && config[i + 1] == '\n'
  }

  predicate CrOnlyLast(line: string)
  {
    forall i :: 0 <= i < |line| - 1 ==> line[i] != '\r'
  }

  predicate AllClean(ls: seq<string>) { forall l :: l in ls ==> Clean(l) }

  predicate Plain(line: string) { CrOnlyLast(line) && Clean(line) }

  predicate AllPlain(ls: seq<string>) { forall l :: l in ls ==> Plain(l) }

  lemma LinesAreClean(config: string)
    requires Accepts(config)
    ensures AllClean(Lines(config))
  {
    hide Overlong, Lines;
    LinesChars(config);
  }

  /** The text up to the first newline, and the text behind it. */
  lemma FirstLineIsPlain(config: string, i: nat)
    requires CrOnlyBeforeLf(config) && !Unsafe(config)
    requires i <= |config| && (forall k :: 0 <= k < i ==> config[k] != '\n')
    ensures Plain(config[..i])
    ensures i < |config| ==> CrOnlyBeforeLf(config[i + 1..]) && !Unsafe(config[i + 1..])
  {
    var line := config[..i];
    forall c | c in line ensures c != '\n' && !IsUnsafeByte(c) {
      var k :| 0 <= k < |line| && line[k] == c;
      assert config[k] == c && c in config;
    }
    forall k | 0 <= k < i - 1 ensures line[k] != '\r' {
      assert config[k] == line[k] && config[k + 1] != '\n';
    }
    if i < |config| {
      var rest := config[i + 1..];
      assert forall k :: 0 <= k < |rest| ==> rest[k] == config[i + 1 + k];
      assert forall c :: c in rest ==> c in config;
    }
  }

  lemma {:induction false} LinesArePlain(config: string)
    requires CrOnlyBeforeLf(config) && !Unsafe(config)
    ensures AllPlain(Lines(config))
  {
    hide SkipWhile, CrOnlyBeforeLf, Unsafe, Plain;
    if config != "" {
      var i := SkipWhile(NotNewline, config, 0);
      assert forall k :: 0 <= k < i ==> NotNewline(config[k]);
      FirstLineIsPlain(config, i);
      if i < |config| {
        assert Lines(config) == [config[..i]] + Lines(config[i + 1..]);
        LinesArePlain(config[i + 1..]);
      } else {
        assert Lines(config) == [config] && config[..i] == config;
      }
    }
  }

  /** Appending trailing white space never changes the tag. */
  lemma TagIgnoresLastSpace(s: string, c: char)
    requires IsTrimChar(c)
    ensures InlineTag(s + [c]) == InlineTag(s)
  {
    hide SkipWhile;
    var t := s + [c];
    if s != "" && s[0] == '<' {
      var nameStart := if |s| > 1 && s[1] == '/' then 2 else 1;
      var e := SkipWhile(InTagName, s, nameStart);
      if e < |s| {
        SkipUnique(InTagName, t, nameStart, e);
        assert t[nameStart..e] == s[nameStart..e];
        if s[e] == '>' {
          var rest := SkipWhile(IsTrimChar, s, e + 1);
          SkipUnique(IsTrimChar, t, e + 1, if rest < |s| then rest else |t|);
        }
      } else {
        assert forall k :: nameStart <= k < |s| ==> t[k] == s[k];
        SkipUnique(InTagName, t, nameStart, if InTagName(c) then |t| else |s|);
      }
    }
  }

  lemma {:induction false} TagIgnoresTrailing(s: string)
    ensures InlineTag(TrimEnd(s)) == InlineTag(s)
  {
    if s != "" && IsTrimChar(s[|s| - 1]) {
      var t := s[..|s| - 1];
      assert s == t + [s[|s| - 1]];
      TagIgnoresLastSpace(t, s[|s| - 1]);
      TagIgnoresTrailing(t);
    }
  }

  /** The pre-scan, which works on raw lines, and the walk, which works on trimmed ones, see the same tags. */
  lemma TrimKeepsTag(line: string)
    requires Plain(line)
    ensures LineTag(Trim(line)) == LineTag(line)
  {
    hide SkipWhile;
    var start := SkipWhile(IsBlank, line, 0);
    var s := line[start..];
    if s == "" || s[0] == '\r' {
      assert forall k :: 0 <= k < |line| ==> IsTrimChar(line[k]);
      SkipUnique(IsTrimChar, line, 0, |line|);
    } else {
      assert s[0] in line && !IsTrimChar(s[0]);
      SkipUnique(IsTrimChar, line, 0, start);
      TagIgnoresTrailing(s);
      var t := Trim(line);
      assert t != "" && t[0] == s[0];
      assert SkipWhile(IsBlank, t, 0) == 0 && t[0..] == t;
    }
  }

  // --- The simulation ---

  lemma KnownTagName(m: string)
    requires Lower(m) in InlineBlockTags()
    ensures m != "" && forall c :: c in m ==> InTagName(c) && !IsSpace(c) && c != '/'
  {
    hide SkipWhile;
    KnownTagChars(Lower(m));
    forall c | c in m ensures InTagName(c) && !IsSpace(c) && c != '/' {
      var k :| 0 <= k < |m| && m[k] == c;
      assert IsTagChar(Lower(m)[k]) && Lower(m)[k] == LowerChar(c);
    }
  }

  /** A line that is one token is one word. */
  lemma OneWord(line: string)
    requires line != "" && line[0] == '<' && forall k :: 0 <= k < |line| ==> !IsSpace(line[k])
    ensures Words(line) == [line]
  {
    hide SkipWhile;
    assert SkipWhile(IsSpace, line, 0) == 0 && SkipWhile(NotSpace, line, 0) == |line|;
    assert line[0..|line|] == line && line[|line|..] == "";
    assert SkipWhile(IsSpace, "", 0) == 0 && Words("") == [];
  }

  /** A trimmed known opener is exactly its tag. */
  lemma OpenerShape(line: string)
    requires Trim(line) == line && Known(LineTag(line)) && LineTag(line).Open?
    ensures |line| >= 2 && line[0] == '<' && line[|line| - 1] == '>'
    ensures Lower(line[1..|line| - 1]) == LineTag(line).name
  {
    hide SkipWhile, InlineBlockTags, Trim;
    TrimProperties(line);
    assert SkipWhile(IsBlank, line, 0) == 0 && line[0..] == line;
    var e := SkipWhile(InTagName, line, 1);
    assert SkipWhile(IsTrimChar, line, e + 1) == |line|;
  }

  /** ... so it is one word for the reader, which opens the same block. */
  lemma OpenerForReader(line: string)
    requires Trim(line) == line && Known(LineTag(line)) && LineTag(line).Open?
    ensures var r := ReaderStep(Top, line); r.In? && Lower(r.name) == LineTag(line).name
  {
    hide LineTag, InlineBlockTags, Words, Trim;
    OpenerShape(line);
    var m := line[1..|line| - 1];
    KnownTagName(m);
    assert forall k :: 1 <= k < |line| - 1 ==> line[k] in m;
    OneWord(line);
  }

  /** A line the reader takes as the end of a known block is a known closer for the filter. */
  lemma CloserForFilter(line: string, name: string)
    requires Trim(line) == line && (forall c :: c in line ==> !IsUnsafeByte(c))
    requires Lower(name) in InlineBlockTags() && ReaderStep(In(name), line).Top?
    ensures LineTag(line) == Close(Lower(name))
  {
    hide SkipWhile, InlineBlockTags;
    TrimProperties(line);
    KnownTagName(name);
    var i := SkipWhile(IsSpace, line, 0);
    if line != "" {
      assert line[0] in line && !IsSpace(line[0]);
      assert SkipWhile(IsBlank, line, 0) == 0 && i == 0 && line[0..] == line;
      CloseIff(line, name);
    }
  }

  /** A closer at the head of a line is found again after the cut, which falls right behind it. */
  lemma CutCloser(line: string)
    requires InlineTag(line).Close?
    ensures var cut := CutAfterGt(line);
      && InlineTag(cut) == InlineTag(line) && CutAfterGt(cut) == cut
      && 0 < |cut| <= |line| && cut == line[..|cut|] && cut[0] == '<' && cut[|cut| - 1] == '>'
  {
    hide SkipWhile, Lower;
    var e := SkipWhile(InTagName, line, 2);
    assert SkipWhile(NotGt, line, 0) == e;
    var cut := line[..e + 1];
    assert SkipWhile(InTagName, cut, 2) == e && SkipWhile(NotGt, cut, 0) == e;
    assert cut[2..e] == line[2..e] && cut[0] == '<' && cut[1] == '/';
  }

  lemma CutKeepsTag(line: string)
    requires Trim(line) == line && LineTag(line).Close?
    ensures var cut := CutAfterGt(line);
      && Trim(cut) == cut && LineTag(cut) == LineTag(line) && CutAfterGt(cut) == cut
      && |cut| <= |line| && forall c :: c in cut ==> c in line
  {
    hide SkipWhile, InlineTag, CutAfterGt;
    TrimProperties(line);
    var start := SkipWhile(IsBlank, line, 0);
    NoTagOfEmpty();
    assert start == 0 && line[0..] == line;
    CutCloser(line);
    var cut := CutAfterGt(line);
    assert SkipWhile(IsBlank, cut, 0) == 0 && SkipWhile(IsTrimChar, cut, 0) == 0 && cut[0..] == cut;
  }

  lemma NoTagOfEmpty()
    ensures LineTag("") == NoTag
  {
  }

  /** Outside every block, with no tag on the line, the reader stays at the top level. */
  lemma NoTagForReader(v: Validators, line: string)
    requires AllowedOutside(v, line) && !Known(LineTag(line)) && (forall c :: c in line ==> !IsUnsafeByte(c))
    ensures ReaderStep(Top, line) == Top
  {
    hide SkipWhile, InlineBlockTags;
    if DirectiveAllowed(v, line) {
      AllowedDirectiveIsNotATag(v, line);
    } else {
      var a := SkipWhile(IsBlank, line, 0);
      var b := SkipWhile(IsSpace, line, 0);
      if a < |line| {
        SkipUnique(IsSpace, line, 0, a);
      } else {
        SkipUnique(IsSpace, line, 0, |line|);
      }
      assert Words(line) == [];
    }
  }

  /** While the filter is inside a block so is the reader, and the reader's block has a known name. */
  predicate Simulates(inside: bool, r: Reader)
  {
    (inside ==> r.In?) && (r.In? ==> Lower(r.name) in InlineBlockTags())
  }

  predicate IsKnownCloser(line: string) { Known(LineTag(line)) && LineTag(line).Close? }

  /** The walk meets no known closer outside a block. */
  predicate ClosersInside(ls: seq<string>, inside: bool)
  {
    ls != [] ==>
      var line := Trim(ls[0]);
      (IsKnownCloser(line) ==> inside) && ClosersInside(ls[1..], NextInside(line, inside, true))
  }

  /** The simulation is kept by every line the filter keeps or drops, other than a closer met outside a block. */
  lemma SimulationStep(v: Validators, raw: string, inside: bool, r: Reader)
    requires Clean(raw) && Simulates(inside, r) && (IsKnownCloser(Trim(raw)) ==> inside)
    ensures var line := Trim(raw);
      var next := NextInside(line, inside, true);
      var kept := KeptLine(v, line, inside, next);
      if kept == [] then Simulates(next, r)
      else Simulates(next, ReaderStep(r, kept[0])) && (r.Top? ==> AllowedOutside(v, kept[0]))
  {
    hide InlineTag, SkipWhile, TrimEnd, Trim, Words, CutAfterGt, InlineBlockTags, DirectiveAllowed, IsEmptyOrComment;
    var line := Trim(raw);
    var t := LineTag(line);
    TrimProperties(raw);
    var next := NextInside(line, inside, true);
    var kept := KeptLine(v, line, inside, next);
    if Known(t) && t.Close? {
      CutKeepsTag(line);
    } else if Known(t) && r.Top? {
      OpenerForReader(line);
    } else if kept != [] && r.Top? {
      NoTagForReader(v, line);
    } else if r.In? && ReaderStep(r, line).Top? {
      CloserForFilter(line, r.name);
    }
  }

  lemma OnlyAllowedCons(v: Validators, line: string, rest: seq<string>, r: Reader)
    ensures OnlyAllowedAtTop(v, [line] + rest, r) ==
      ((r.Top? ==> AllowedOutside(v, line)) && OnlyAllowedAtTop(v, rest, ReaderStep(r, line)))
  {
    hide AllowedOutside, ReaderStep;
    assert ([line] + rest)[1..] == rest;
  }

  /** With blocks honoured and no closer outside one, the simulation holds along the whole walk. */
  lemma {:induction false} BalancedSimulation(v: Validators, ls: seq<string>, inside: bool, r: Reader)
    requires AllClean(ls) && ClosersInside(ls, inside) && Simulates(inside, r)
    ensures OnlyAllowedAtTop(v, FilterLines(v, ls, inside, true), r)
  {
    if ls != [] {
      hide Trim, NextInside, LineTag, Clean, Simulates, ReaderStep, AllowedOutside, FilterLines, OnlyAllowedAtTop,
        CutAfterGt, IsKnownCloser;
      var rest := ls[1..];
      assert ls == [ls[0]] + rest && ls[0] in ls && AllClean(rest);
      var line := Trim(ls[0]);
      var next := NextInside(line, inside, true);
      var kept := KeptLine(v, line, inside, next);
      SimulationStep(v, ls[0], inside, r);
      FilterStep(v, [], ls[0], rest, inside, true);
      var tail := FilterLines(v, rest, next, true);
      assert FilterLines(v, ls, inside, true) == kept + tail;
      if kept == [] {
        BalancedSimulation(v, rest, next, r);
        assert kept + tail == tail;
      } else {
        BalancedSimulation(v, rest, next, ReaderStep(r, kept[0]));
        OnlyAllowedCons(v, kept[0], tail, r);
      }
    }
  }

  /** When the trimmed lines balance, every closer is met inside a block. */
  lemma {:induction false} BalancedClosersInside(ls: seq<string>, cur: Option<string>)
    requires BalancedFrom(Tags(TrimAll(ls)), cur)
    ensures ClosersInside(ls, cur.Some?)
  {
    if ls != [] {
      hide Trim, LineTag, Tags, BalancedFrom, InlineBlockTags;
      var line := Trim(ls[0]);
      BalanceCons(line, TrimAll(ls[1..]), cur);
      var t := LineTag(line);
      BalancedClosersInside(ls[1..], if !Known(t) then cur else if t.Open? then Some(t.name) else None);
    }
  }

  /** When carriage returns only end lines, trimming changes no tag. */
  lemma {:induction false} TrimKeepsTags(ls: seq<string>)
    requires AllPlain(ls)
    ensures Tags(TrimAll(ls)) == Tags(ls)
  {
    if ls != [] {
      hide Trim, LineTag, Plain, Known;
      assert ls[0] in ls && AllPlain(ls[1..]);
      TrimKeepsTag(ls[0]);
      TrimKeepsTags(ls[1..]);
    }
  }

  /** So the pre-scan and the walk agree on whether the blocks balance. */
  lemma CrBeforeLfBalances(config: string)
    requires CrOnlyBeforeLf(config) && Accepts(config)
    ensures Balanced(config) == TrimmedBalanced(config)
  {
    hide Lines, Tags, BalancedFrom, CrOnlyBeforeLf, Overlong, Unsafe;
    LinesArePlain(config);
    TrimKeepsTags(Lines(config));
  }

  /** Unbalanced blocks: nothing is passed through, so every line kept is allowed on its own. */
  lemma {:induction false} UnbalancedAllAllowed(v: Validators, ls: seq<string>, r: Reader)
    ensures OnlyAllowedAtTop(v, FilterLines(v, ls, false, false), r)
  {
    if ls != [] {
      hide Trim, LineTag, ReaderStep, AllowedOutside, FilterLines, OnlyAllowedAtTop;
      var rest := ls[1..];
      assert ls == [ls[0]] + rest;
      var kept := KeptLine(v, Trim(ls[0]), false, false);
      FilterStep(v, [], ls[0], rest, false, false);
      var tail := FilterLines(v, rest, false, false);
      assert FilterLines(v, ls, false, false) == kept + tail;
      if kept == [] {
        UnbalancedAllAllowed(v, rest, r);
        assert kept + tail == tail;
      } else {
        UnbalancedAllAllowed(v, rest, ReaderStep(r, kept[0]));
        OnlyAllowedCons(v, kept[0], tail, r);
      }
    }
  }

  /** What the kept lines are made of. */
  lemma {:induction false} KeptLineShape(v: Validators, ls: seq<string>, inside: bool, allow: bool)
    ensures forall o :: o in FilterLines(v, ls, inside, allow) ==>
      exists l :: l in ls && |o| <= |l| && forall c :: c in o ==> c in l
  {
    hide InlineTag, LineTag, Trim, AllowedOutside, NextInside, InlineBlockTags;
    if ls != [] {
      TrimProperties(ls[0]);
      var line := Trim(ls[0]);
      var next := NextInside(line, inside, allow);
      KeptLineShape(v, ls[1..], next, allow);
      forall o | o in FilterLines(v, ls, inside, allow)
        ensures exists l :: l in ls && |o| <= |l| && forall c :: c in o ==> c in l
      {
        if o in KeptLine(v, line, inside, next) {
          assert ls[0] in ls && |o| <= |line| && forall c :: c in o ==> c in line;
        } else {
          var l :| l in ls[1..] && |o| <= |l| && forall c :: c in o ==> c in l;
          assert l in ls;
        }
      }
    }
  }

  /** Both readers see exactly the kept lines, and the output passes the two rejection tests again. */
  lemma OutputLines(v: Validators, config: string)
    requires Accepts(config)
    ensures var out := Filtered(v, config);
      var kept := FilterLines(v, Lines(config), false, Balanced(config));
      && Lines(out) == kept && ReaderLines(out) == kept && Accepts(out)
  {
    hide FilterLines, Balanced, Lines, Unlines, ChunkLines, Fits;
    var kept := FilterLines(v, Lines(config), false, Balanced(config));
    var out := Unlines(kept);
    KeptLineShape(v, Lines(config), false, Balanced(config));
    LinesChars(config);
    forall l, c | l in kept && c in l ensures c != '\n' && !IsUnsafeByte(c) {
      var o :| o in Lines(config) && |l| <= |o| && forall d :: d in l ==> d in o;
      assert c in config;
    }
    LinesUnlines(kept);
    UnlinesChars(kept);
    NotOverlongFits(out);
    ReadersAgreeIff(out);
  }

  /** Every line the reader meets at the top level of the filtered text, through its fixed-size buffer, is one the
      filter allows there: empty, a comment, a known tag or an allowed directive. */
  ghost predicate ReaderGuarantee(v: Validators, config: string)
  {
    var ls := ReaderLines(Filtered(v, config));
    forall k :: 0 <= k < |ls| && ReaderRun(Top, ls[..k]).Top? ==> AllowedOutside(v, ls[k])
  }

  /** MAIN RESULT. The guarantee holds for every accepted config unless the pre-scan found the raw lines balanced while
      the walk, on the trimmed ones, meets a closer outside a block. */
  lemma ReaderSeesOnlyAllowed(v: Validators, config: string)
    requires Accepts(config) && (Balanced(config) ==> ClosersInside(Lines(config), false))
    ensures ReaderGuarantee(v, config)
  {
    OutputLines(v, config);
    var ls := Lines(config);
    LinesAreClean(config);
    if Balanced(config) {
      BalancedSimulation(v, ls, false, Top);
    } else {
      UnbalancedAllAllowed(v, ls, Top);
    }
    var out := ReaderLines(Filtered(v, config));
    assert OnlyAllowedAtTop(v, out, Top);
    forall k | 0 <= k < |out| && ReaderRun(Top, out[..k]).Top? ensures AllowedOutside(v, out[k]) {
      hide *;
      OnlyAllowedAtTopMeans(v, out, Top, k);
    }
  }

  /** In particular when the trimmed lines balance too, and when carriage returns stand only before newlines. */
  lemma ReaderSeesOnlyAllowedWhenTrimmedBalances(v: Validators, config: string)
    requires Accepts(config) && (CrOnlyBeforeLf(config) || (Balanced(config) ==> TrimmedBalanced(config)))
    ensures ReaderGuarantee(v, config)
  {
    hide ReaderGuarantee, Accepts, Balanced, CrOnlyBeforeLf, Lines, ClosersInside;
    if CrOnlyBeforeLf(config) {
      CrBeforeLfBalances(config);
    }
    if Balanced(config) {
      BalancedClosersInside(Lines(config), None);
    }
    ReaderSeesOnlyAllowed(v, config);
  }
}
