/** Exactly when filtering twice is filtering once, inline blocks coming through whole, and configs for which the
    idempotence and the reader guarantee fail. */
module OvpnStability {
  import opened Text
  import opened OvpnDirectives
  import opened OvpnFilter
  import opened OvpnReader

  /** A kept line is kept again, unchanged, from the same state. */
  lemma KeptIsFixed(v: Validators, raw: string, inside: bool, allow: bool)
    ensures var line := Trim(raw);
      var next := NextInside(line, inside, allow);
      var kept := KeptLine(v, line, inside, next);
      if kept == [] then next == inside && !Known(LineTag(line))
      else
        && kept == [kept[0]] && Trim(kept[0]) == kept[0] && LineTag(kept[0]) == LineTag(line)
        && NextInside(kept[0], inside, allow) == next && KeptLine(v, kept[0], inside, next) == kept
  {
    hide SkipWhile, InlineTag, LineTag, Trim, DirectiveAllowed, CutAfterGt, InlineBlockTags, IsEmptyOrComment;
    TrimProperties(raw);
    var line := Trim(raw);
    if inside && !NextInside(line, inside, allow) {
      CutKeepsTag(line);
    }
  }

  lemma {:induction false} FilterFixesOutput(v: Validators, ls: seq<string>, inside: bool, allow: bool)
    ensures var kept := FilterLines(v, ls, inside, allow);
      FilterLines(v, kept, inside, allow) == kept
  {
    if ls != [] {
      hide Trim, NextInside, KeptLine, FilterLines, LineTag, Known;
      var line := Trim(ls[0]);
      var next := NextInside(line, inside, allow);
      var kept := KeptLine(v, line, inside, next);
      var tail := FilterLines(v, ls[1..], next, allow);
      assert ls == [ls[0]] + ls[1..];
      KeptIsFixed(v, ls[0], inside, allow);
      FilterStep(v, [], ls[0], ls[1..], inside, allow);
      assert FilterLines(v, ls, inside, allow) == kept + tail;
      FilterFixesOutput(v, ls[1..], next, allow);
      if kept == [] {
        assert kept + tail == tail;
      } else {
        FilterStep(v, [], kept[0], tail, inside, allow);
        assert FilterLines(v, [kept[0]] + tail, inside, allow) == kept + tail;
      }
    }
  }

  /** No known tag of the trimmed lines is ever dropped, added or renamed. */
  lemma {:induction false} FilterKeepsTags(v: Validators, ls: seq<string>, inside: bool, allow: bool)
    ensures Tags(FilterLines(v, ls, inside, allow)) == Tags(TrimAll(ls))
  {
    if ls != [] {
      hide Trim, NextInside, KeptLine, FilterLines, LineTag, Known;
      var rest := ls[1..];
      assert ls == [ls[0]] + rest;
      var line := Trim(ls[0]);
      var next := NextInside(line, inside, allow);
      var kept := KeptLine(v, line, inside, next);
      var tail := FilterLines(v, rest, next, allow);
      KeptIsFixed(v, ls[0], inside, allow);
      FilterStep(v, [], ls[0], rest, inside, allow);
      assert FilterLines(v, ls, inside, allow) == kept + tail;
      FilterKeepsTags(v, rest, next, allow);
      assert TrimAll(ls)[0] == line && TrimAll(ls)[1..] == TrimAll(rest);
      if kept == [] {
        assert kept + tail == tail;
      } else {
        assert (kept + tail)[1..] == tail && (kept + tail)[0] == kept[0];
      }
    }
  }

  // --- Exactly when the filter is idempotent ---

  /** With blocks honoured, every line passed through inside one would be allowed outside. */
  predicate BodiesAllowed(v: Validators, ls: seq<string>, inside: bool)
  {
    ls != [] ==>
      var line := Trim(ls[0]);
      (inside ==> AllowedOutside(v, line)) && BodiesAllowed(v, ls[1..], NextInside(line, inside, true))
  }

  /** With blocks honoured, every closer that ends one has nothing behind its '>'. */
  predicate ClosersBare(ls: seq<string>, inside: bool)
  {
    ls != [] ==>
      var line := Trim(ls[0]);
      var next := NextInside(line, inside, true);
      (inside && !next ==> CutAfterGt(line) == line) && ClosersBare(ls[1..], next)
  }

  /** A second pass that honours no block keeps everything exactly when the bodies are allowed on their own. */
  lemma {:induction false} RefilterUnhonoured(v: Validators, ls: seq<string>, inside: bool)
    ensures var kept := FilterLines(v, ls, inside, true);
      var again := FilterLines(v, kept, false, false);
      |again| <= |kept| && (again == kept <==> BodiesAllowed(v, ls, inside))
  {
    if ls != [] {
      hide Trim, LineTag, FilterLines, CutAfterGt, InlineBlockTags, DirectiveAllowed, IsEmptyOrComment, BodiesAllowed;
      var rest := ls[1..];
      assert ls == [ls[0]] + rest;
      var line := Trim(ls[0]);
      var next := NextInside(line, inside, true);
      var kept := KeptLine(v, line, inside, next);
      var tail := FilterLines(v, rest, next, true);
      KeptIsFixed(v, ls[0], inside, true);
      FilterStep(v, [], ls[0], rest, inside, true);
      assert FilterLines(v, ls, inside, true) == kept + tail;
      BodiesAllowedCons(v, ls, inside);
      RefilterUnhonoured(v, rest, next);
      if kept == [] {
        assert kept + tail == tail;
      } else {
        FilterStep(v, [], kept[0], tail, false, false);
        var again := FilterLines(v, tail, false, false);
        assert FilterLines(v, kept + tail, false, false) == KeptLine(v, kept[0], false, false) + again;
        SameTail(kept[0], kept[0], again, tail);
      }
    }
  }

  lemma BodiesAllowedCons(v: Validators, ls: seq<string>, inside: bool)
    requires ls != []
    ensures BodiesAllowed(v, ls, inside) == (var line := Trim(ls[0]);
      (inside ==> AllowedOutside(v, line)) && BodiesAllowed(v, ls[1..], NextInside(line, inside, true)))
  {
    hide Trim, AllowedOutside, NextInside;
  }

  /** A second pass that honours blocks the first one did not keeps everything exactly when the closers are bare. */
  lemma {:induction false} RefilterHonoured(v: Validators, ls: seq<string>, inside: bool)
    ensures var kept := FilterLines(v, ls, false, false);
      FilterLines(v, kept, inside, true) == kept <==> ClosersBare(ls, inside)
  {
    if ls != [] {
      hide Trim, LineTag, FilterLines, CutAfterGt, InlineBlockTags, DirectiveAllowed, IsEmptyOrComment, ClosersBare;
      var rest := ls[1..];
      assert ls == [ls[0]] + rest;
      var line := Trim(ls[0]);
      var next := NextInside(line, inside, true);
      var kept := KeptLine(v, line, false, false);
      var tail := FilterLines(v, rest, false, false);
      KeptIsFixed(v, ls[0], false, false);
      FilterStep(v, [], ls[0], rest, false, false);
      assert FilterLines(v, ls, false, false) == kept + tail;
      ClosersBareCons(ls, inside);
      RefilterHonoured(v, rest, next);
      if kept == [] {
        assert kept + tail == tail;
      } else {
        FilterStep(v, [], line, tail, inside, true);
        var again := FilterLines(v, tail, next, true);
        assert FilterLines(v, kept + tail, inside, true) == KeptLine(v, line, inside, next) + again;
        SameTail(if inside && !next then CutAfterGt(line) else line, line, again, tail);
      }
    }
  }

  lemma ClosersBareCons(ls: seq<string>, inside: bool)
    requires ls != []
    ensures ClosersBare(ls, inside) == (var line := Trim(ls[0]); var next := NextInside(line, inside, true);
      (inside && !next ==> CutAfterGt(line) == line) && ClosersBare(ls[1..], next))
  {
    hide Trim, NextInside, CutAfterGt;
  }

  lemma SameTail(x: string, y: string, a: seq<string>, b: seq<string>)
    ensures [x] + a == [y] + b <==> x == y && a == b
  {
    assert ([x] + a)[1..] == a && ([y] + b)[1..] == b;
    assert ([x] + a)[0] == x && ([y] + b)[0] == y;
  }

  predicate Idempotent(v: Validators, config: string)
  {
    Filter(v, Filtered(v, config)) == Some(Filtered(v, config))
  }

  /** The second pass is the walk over the kept lines, with the balance of the trimmed lines. */
  lemma SecondPass(v: Validators, config: string)
    requires Accepts(config)
    ensures var kept := FilterLines(v, Lines(config), false, Balanced(config));
      Idempotent(v, config) <==> FilterLines(v, kept, false, TrimmedBalanced(config)) == kept
  {
    hide FilterLines, Tags, BalancedFrom, Lines, Unlines, Unsafe, Overlong;
    var ls := Lines(config);
    var kept := FilterLines(v, ls, false, Balanced(config));
    OutputLines(v, config);
    FilterKeepsTags(v, ls, false, Balanced(config));
    var again := FilterLines(v, kept, false, TrimmedBalanced(config));
    assert Filter(v, Filtered(v, config)) == Some(Unlines(again));
    if Unlines(again) == Unlines(kept) {
      OutputLines(v, Filtered(v, config));
    }
  }

  /** MAIN RESULT. For every accepted config, filtering twice is filtering once if and only if the raw and the trimmed
      lines agree on balance, or else: where only the raw lines balance, every body line is allowed on its own, and
      where only the trimmed ones do, no closer has anything behind its '>'. */
  lemma FilterIdempotentIff(v: Validators, config: string)
    requires Accepts(config)
    ensures Idempotent(v, config) <==>
      || Balanced(config) == TrimmedBalanced(config)
      || (if Balanced(config) then BodiesAllowed(v, Lines(config), false) else ClosersBare(Lines(config), false))
  {
    hide FilterLines, Tags, BalancedFrom, Lines, Accepts, Idempotent, BodiesAllowed, ClosersBare;
    var ls := Lines(config);
    SecondPass(v, config);
    if Balanced(config) == TrimmedBalanced(config) {
      FilterFixesOutput(v, ls, false, Balanced(config));
    } else if Balanced(config) {
      RefilterUnhonoured(v, ls, false);
    } else {
      RefilterHonoured(v, ls, false);
    }
  }

  /** In particular the filter is idempotent when carriage returns stand only before newlines. */
  lemma FilterIdempotent(v: Validators, config: string)
    requires CrOnlyBeforeLf(config) && Accepts(config)
    ensures Filter(v, Filtered(v, config)) == Some(Filtered(v, config))
  {
    hide Accepts, CrOnlyBeforeLf, Balanced, TrimmedBalanced, Filter, Filtered, BodiesAllowed, ClosersBare, Lines;
    CrBeforeLfBalances(config);
    FilterIdempotentIff(v, config);
  }

  // --- Inline blocks ---

  datatype Block = Block(opener: string, body: seq<string>, closer: string)

  /** The blocks of a list of lines, closers as written; `cur` is the block being read. */
  function Blocks(ls: seq<string>, cur: Option<Block>): seq<Block>
  {
    if ls == [] then []
    else
      var t := LineTag(ls[0]);
      if cur.None? then
        Blocks(ls[1..], if Known(t) && t.Open? then Some(Block(ls[0], [], "")) else None)
      else if Known(t) && t.Close? then
        [cur.value.(closer := ls[0])] + Blocks(ls[1..], None)
      else
        Blocks(ls[1..], Some(cur.value.(body := cur.value.body + [ls[0]])))
  }

  function CutClosers(bs: seq<Block>): (r: seq<Block>)
    ensures |r| == |bs|
    ensures forall k :: 0 <= k < |bs| ==>
      r[k] == Block(bs[k].opener, bs[k].body, CutAfterGt(bs[k].closer))
  {
    if bs == [] then [] else [bs[0].(closer := CutAfterGt(bs[0].closer))] + CutClosers(bs[1..])
  }

  /** What a block scan does with one line. */
  lemma BlocksCons(line: string, rest: seq<string>, cur: Option<Block>)
    ensures var t := LineTag(line);
      Blocks([line] + rest, cur) ==
        if cur.None? then Blocks(rest, if Known(t) && t.Open? then Some(Block(line, [], "")) else None)
        else if Known(t) && t.Close? then [cur.value.(closer := line)] + Blocks(rest, None)
        else Blocks(rest, Some(cur.value.(body := cur.value.body + [line])))
  {
    hide LineTag, Known;
    assert ([line] + rest)[1..] == rest;
  }

  lemma CutClosersCons(b: Block, bs: seq<Block>)
    ensures CutClosers([b] + bs) == [b.(closer := CutAfterGt(b.closer))] + CutClosers(bs)
  {
    hide CutAfterGt;
    assert ([b] + bs)[1..] == bs;
  }

  lemma {:induction false} FilterKeepsBlocks(v: Validators, ls: seq<string>, cur: Option<Block>)
    ensures Blocks(FilterLines(v, ls, cur.Some?, true), cur) == CutClosers(Blocks(TrimAll(ls), cur))
  {
    if ls != [] {
      hide Trim, LineTag, FilterLines, Blocks, Known, AllowedOutside, CutAfterGt, CutClosers;
      var line := Trim(ls[0]);
      var t := LineTag(line);
      var rest := ls[1..];
      var next := NextInside(line, cur.Some?, true);
      var kept := KeptLine(v, line, cur.Some?, next);
      var tail := FilterLines(v, rest, next, true);
      assert ls == [ls[0]] + rest;
      FilterStep(v, [], ls[0], rest, cur.Some?, true);
      assert FilterLines(v, ls, cur.Some?, true) == kept + tail;
      KeptIsFixed(v, ls[0], cur.Some?, true);
      BlocksCons(line, TrimAll(rest), cur);
      if kept == [] {
        assert kept + tail == tail;
        FilterKeepsBlocks(v, rest, cur);
      } else {
        BlocksCons(kept[0], tail, cur);
        if cur.None? {
          FilterKeepsBlocks(v, rest, if Known(t) && t.Open? then Some(Block(line, [], "")) else None);
        } else if Known(t) && t.Close? {
          FilterKeepsBlocks(v, rest, None);
          CutClosersCons(cur.value.(closer := line), Blocks(TrimAll(rest), None));
        } else {
          FilterKeepsBlocks(v, rest, Some(cur.value.(body := cur.value.body + [line])));
        }
      }
    }
  }

  /** MAIN RESULT. When the inline blocks balance, the output holds the same blocks in the same order, every
      body line present and trimmed, and every closer cut after its '>'. */
  lemma BlocksPreserved(v: Validators, config: string)
    requires Accepts(config) && Balanced(config)
    ensures Blocks(Lines(Filtered(v, config)), None) ==
            CutClosers(Blocks(TrimAll(Lines(config)), None))
  {
    OutputLines(v, config);
    FilterKeepsBlocks(v, Lines(config), None);
  }

  // --- Configs for which the raw and the trimmed lines disagree ---

  lemma BareLine(s: string)
    requires s != "" && !IsTrimChar(s[0]) && !IsTrimChar(s[|s| - 1])
    ensures Trim(s) == s && Trim("\r" + s) == s && LineTag(s) == InlineTag(s) && LineTag("\r" + s) == NoTag
  {
    hide SkipWhile, InlineTag;
    var t := "\r" + s;
    assert t[0] == '\r' && t[1] == s[0] && t[1..] == s;
    assert SkipWhile(IsTrimChar, s, 0) == 0 && SkipWhile(IsBlank, s, 0) == 0 && s[0..] == s;
    assert SkipWhile(IsTrimChar, t, 0) == 1 && SkipWhile(IsBlank, t, 0) == 0;
    NoTagAtStart(t);
  }

  lemma OpenerFacts(s: string, m: string)
    requires s == "<" + m + ">" && m in InlineBlockTags() && Lower(m) == m
    ensures Trim(s) == s && Trim("\r" + s) == s && LineTag("\r" + s) == NoTag
    ensures LineTag(s) == Open(m) && Known(LineTag(s))
  {
    hide SkipWhile, InlineTag, LineTag, Trim, InlineBlockTags;
    KnownTagName(m);
    assert m[0] in m;
    OpenIff(s, m);
    BareLine(s);
  }

  lemma CloserFacts(s: string, m: string)
    requires s == "</" + m + ">" && Lower(m) == m && m != "" && forall c :: c in m ==> InTagName(c)
    ensures Trim(s) == s && Trim("\r" + s) == s && LineTag("\r" + s) == NoTag
    ensures LineTag(s) == Close(m) && CutAfterGt(s) == s
  {
    hide SkipWhile, InlineTag, LineTag, Trim;
    CloseIff(s, m);
    BareLine(s);
    assert forall k :: 2 <= k < 2 + |m| ==> s[k] == m[k - 2] && m[k - 2] in m;
    assert SkipWhile(NotGt, s, 0) == |s| - 1;
  }

  lemma PlainWord(v: Validators)
    ensures Trim("x") == "x" && LineTag("x") == NoTag && !AllowedOutside(v, "x")
  {
    hide SkipWhile, IsAllowedName, InlineTag, Words, LineTag;
    var s := "x";
    assert s[0] == 'x' && |s| == 1;
    BareLine(s);
    assert SkipWhile(IsBlank, s, 0) == 0 && s[0..] == s;
    if DirectiveAllowed(v, s) {
      AllowedNameStartsWithLetter(DirectiveName(s));
    }
    XIsNoTag();
  }

  lemma XIsNoTag()
    ensures InlineTag("x") == NoTag
  {
  }

  /** `raw` is seen as `line` after trimming; the pre-scan sees `t` on the raw line. */
  predicate SeenAs(raw: string, line: string, t: Tag)
  {
    Trim(raw) == line && LineTag(raw) == t
  }

  lemma WalkOne(v: Validators, raw: string, rest: seq<string>, inside: bool, allow: bool)
    ensures var line := Trim(raw);
      var next := NextInside(line, inside, allow);
      FilterLines(v, [raw] + rest, inside, allow) == KeptLine(v, line, inside, next) + FilterLines(v, rest, next, allow)
    ensures FilterLines(v, [], inside, allow) == []
  {
    var f := FilterLines(v, [raw] + rest, inside, allow);
    assert [] + f == f;
    FilterStep(v, [], raw, rest, inside, allow);
  }

  /** An opener o, an opener p hidden as h, a word x and a closer c: the first pass keeps x, the second strips it. */
  lemma HiddenOpener(v: Validators)
    ensures var o, h, p, x, c := OPEN_CA, "\r" + OPEN_CERT, OPEN_CERT, WORD, CLOSE_CA;
      && FilterLines(v, [o, h, x, c], false, true) == [o, p, x, c]
      && FilterLines(v, [o, p, x, c], false, false) == [o, p, c]
      && BalancedFrom(Tags([o, h, x, c]), None) && !BalancedFrom(Tags([o, p, x, c]), None)
  {
    hide Trim, LineTag, CutAfterGt, FilterLines, Tags, InlineBlockTags, IsEmptyOrComment, DirectiveAllowed;
    hide OPEN_CA, OPEN_CERT, CLOSE_CA, WORD, Short, Lower;
    var o, h, p, x, c := OPEN_CA, "\r" + OPEN_CERT, OPEN_CERT, WORD, CLOSE_CA;
    var m, n := "ca", "cert";
    WordFacts();
    CaFacts(v);
    assert [o, h, x, c] == [o] + [h, x, c] && [h, x, c] == [h] + [x, c] && [x, c] == [x] + [c] && [c] == [c] + [];
    assert [o, p, x, c] == [o] + [p, x, c] && [p, x, c] == [p] + [x, c];
    WalkOne(v, c, [], true, true);
    WalkOne(v, x, [c], true, true);
    WalkOne(v, h, [x, c], true, true);
    WalkOne(v, o, [h, x, c], false, true);
    WalkOne(v, c, [], false, false);
    WalkOne(v, x, [c], false, false);
    WalkOne(v, p, [x, c], false, false);
    WalkOne(v, o, [p, x, c], false, false);
    ScanOne(c, [], Some(m));
    ScanOne(x, [c], Some(m));
    ScanOne(h, [x, c], Some(m));
    ScanOne(o, [h, x, c], None);
    ScanOne(p, [x, c], Some(m));
    ScanOne(o, [p, x, c], None);
  }

  lemma ScanOne(line: string, rest: seq<string>, cur: Option<string>)
    ensures BalancedFrom(Tags([line] + rest), cur) == BalanceStep(LineTag(line), Tags(rest), cur)
    ensures BalancedFrom(Tags([]), cur) == cur.None?
  {
    BalanceCons(line, rest, cur);
  }

  /** A closer c hidden as h, then a block whose body closes a block named "/ca". */
  lemma HiddenCloser(v: Validators)
    ensures var h, o, d, x, c := "\r" + CLOSE_CA, OPEN_CA, DOUBLE_CLOSE, WORD, CLOSE_CA;
      FilterLines(v, [h, o, d, x, c], false, true) == [c, o, d, x, c] && BalancedFrom(Tags([h, o, d, x, c]), None)
  {
    hide Trim, LineTag, CutAfterGt, FilterLines, Tags, InlineBlockTags, IsEmptyOrComment, DirectiveAllowed;
    hide OPEN_CA, DOUBLE_CLOSE, CLOSE_CA, WORD, Short, Lower;
    var h, o, d, x, c, m := "\r" + CLOSE_CA, OPEN_CA, DOUBLE_CLOSE, WORD, CLOSE_CA, "ca";
    WordFacts();
    CaFacts(v);
    assert [h, o, d, x, c] == [h] + [o, d, x, c] && [o, d, x, c] == [o] + [d, x, c];
    assert [d, x, c] == [d] + [x, c] && [x, c] == [x] + [c] && [c] == [c] + [];
    WalkOne(v, c, [], true, true);
    WalkOne(v, x, [c], true, true);
    WalkOne(v, d, [x, c], true, true);
    WalkOne(v, o, [d, x, c], false, true);
    WalkOne(v, h, [o, d, x, c], false, true);
    ScanOne(c, [], Some(m));
    ScanOne(x, [c], Some(m));
    ScanOne(d, [x, c], Some(m));
    ScanOne(o, [d, x, c], None);
    ScanOne(h, [o, d, x, c], None);
  }

  predicate Short(l: string) { |l| <= MAX_LINE && forall c :: c in l ==> c != '\n' && !IsUnsafeByte(c) }

  lemma Accepted(v: Validators, ls: seq<string>)
    requires forall l :: l in ls ==> Short(l)
    ensures Lines(Unlines(ls)) == ls
    ensures Filter(v, Unlines(ls)) == Some(Unlines(FilterLines(v, ls, false, BalancedFrom(Tags(ls), None))))
    ensures ReaderLines(Unlines(ls)) == ls
  {
    hide Lines, Unlines, FilterLines, ReaderLines;
    LinesUnlines(ls);
    UnlinesChars(ls);
    NotOverlongFits(Unlines(ls));
    ReadersAgreeIff(Unlines(ls));
  }

  const OPEN_CA := "<ca>"
  const CLOSE_CA := "</ca>"
  const OPEN_CERT := "<cert>"
  const DOUBLE_CLOSE := "<//ca>"
  const WORD := "x"

  lemma WordFacts()
    ensures Short(OPEN_CA) && Short(CLOSE_CA) && Short(OPEN_CERT) && Short(DOUBLE_CLOSE) && Short(WORD)
    ensures Short("\r" + OPEN_CERT) && Short("\r" + CLOSE_CA)
    ensures "ca" in InlineBlockTags() && "cert" in InlineBlockTags() && "/ca" !in InlineBlockTags()
    ensures Lower("ca") == "ca" && Lower("cert") == "cert" && Lower("/ca") == "/ca"
    ensures OPEN_CA == "<" + "ca" + ">" && CLOSE_CA == "</" + "ca" + ">" && OPEN_CERT == "<" + "cert" + ">"
    ensures DOUBLE_CLOSE == "</" + "/ca" + ">"
  {
  }

  /** Where only the raw lines balance idempotence can fail: the first pass keeps a body line the second one strips. */
  lemma IdempotenceNeedsAgreement(v: Validators)
    ensures var config := Unlines([OPEN_CA, "\r" + OPEN_CERT, WORD, CLOSE_CA]);
      && Filter(v, config) == Some(Unlines([OPEN_CA, OPEN_CERT, WORD, CLOSE_CA]))
      && Filter(v, Unlines([OPEN_CA, OPEN_CERT, WORD, CLOSE_CA])) == Some(Unlines([OPEN_CA, OPEN_CERT, CLOSE_CA]))
      && Accepts(config) && !Idempotent(v, config)
  {
    hide *;
    WordFacts();
    CaFacts(v);
    var first := [OPEN_CA, "\r" + OPEN_CERT, WORD, CLOSE_CA];
    var second := [OPEN_CA, OPEN_CERT, WORD, CLOSE_CA];
    HiddenOpener(v);
    Accepted(v, first);
    Accepted(v, second);
    Accepted(v, [OPEN_CA, OPEN_CERT, CLOSE_CA]);
    AcceptedText(v, Unlines(first), Unlines(second));
    NotIdempotent(v, Unlines(first));
  }

  lemma CaFacts(v: Validators)
    ensures SeenAs(OPEN_CA, OPEN_CA, Open("ca")) && SeenAs(OPEN_CERT, OPEN_CERT, Open("cert"))
    ensures SeenAs("\r" + OPEN_CERT, OPEN_CERT, NoTag) && SeenAs("\r" + CLOSE_CA, CLOSE_CA, NoTag)
    ensures SeenAs(CLOSE_CA, CLOSE_CA, Close("ca")) && CutAfterGt(CLOSE_CA) == CLOSE_CA
    ensures SeenAs(WORD, WORD, NoTag) && !AllowedOutside(v, WORD)
    ensures Trim(DOUBLE_CLOSE) == DOUBLE_CLOSE && !Known(LineTag(DOUBLE_CLOSE))
  {
    hide Trim, LineTag, CutAfterGt, AllowedOutside, InlineBlockTags, Lower, Short;
    WordFacts();
    OpenerFacts(OPEN_CA, "ca");
    OpenerFacts(OPEN_CERT, "cert");
    CloserFacts(CLOSE_CA, "ca");
    CloserFacts(DOUBLE_CLOSE, "/ca");
    PlainWord(v);
  }

  /** With a closer outside a block the reader guarantee can fail: the reader takes the lone closer for the opener of a
      block named "/ca", leaves that block inside the filter's, and meets a body line at the top level. */
  lemma ReaderNeedsClosersInside(v: Validators)
    ensures var config := Unlines(["\r" + CLOSE_CA, OPEN_CA, DOUBLE_CLOSE, WORD, CLOSE_CA]);
      var out := [CLOSE_CA, OPEN_CA, DOUBLE_CLOSE, WORD, CLOSE_CA];
      && Accepts(config) && ReaderLines(Filtered(v, config)) == out
      && ReaderRun(Top, out[..3]).Top? && !AllowedOutside(v, out[3])
      && !ReaderGuarantee(v, config)
  {
    hide *;
    WordFacts();
    CaFacts(v);
    var out := [CLOSE_CA, OPEN_CA, DOUBLE_CLOSE, WORD, CLOSE_CA];
    var config := Unlines(["\r" + CLOSE_CA, OPEN_CA, DOUBLE_CLOSE, WORD, CLOSE_CA]);
    HiddenCloser(v);
    Accepted(v, ["\r" + CLOSE_CA, OPEN_CA, DOUBLE_CLOSE, WORD, CLOSE_CA]);
    Accepted(v, out);
    AcceptedText(v, config, Unlines(out));
    ReaderSteps();
    RunThree(Top, CLOSE_CA, OPEN_CA, DOUBLE_CLOSE);
    assert out[..3] == [CLOSE_CA, OPEN_CA, DOUBLE_CLOSE];
    GuaranteeBroken(v, config, out, 3);
  }

  lemma NotIdempotent(v: Validators, config: string)
    requires Filter(v, config).Some? && Filter(v, Filtered(v, config)) != Filter(v, config)
    ensures !Idempotent(v, config)
  {
    hide Accepts, Filtered;
  }

  lemma AcceptedText(v: Validators, config: string, out: string)
    requires Filter(v, config) == Some(out)
    ensures Accepts(config) && Filtered(v, config) == out
  {
    hide Accepts, Filtered;
  }

  lemma GuaranteeBroken(v: Validators, config: string, out: seq<string>, k: nat)
    requires ReaderLines(Filtered(v, config)) == out && k < |out|
    requires ReaderRun(Top, out[..k]).Top? && !AllowedOutside(v, out[k])
    ensures !ReaderGuarantee(v, config)
  {
    hide ReaderLines, Filtered, ReaderRun, AllowedOutside;
  }

  lemma RunThree(r: Reader, a: string, b: string, c: string)
    ensures ReaderRun(r, [a, b, c]) == ReaderStep(ReaderStep(ReaderStep(r, a), b), c)
  {
    hide ReaderStep;
    var ls := [a, b, c];
    var r1, r2 := ReaderStep(r, a), ReaderStep(ReaderStep(r, a), b);
    assert ls[1..] == [b, c] && [b, c][1..] == [c];
    assert ReaderRun(r, ls) == ReaderRun(r1, [b, c]) && ReaderRun(r1, [b, c]) == ReaderRun(r2, [c]);
    assert ReaderRun(r2, [c]) == ReaderStep(r2, c);
  }

  lemma ReaderSteps()
    ensures ReaderStep(ReaderStep(ReaderStep(Top, CLOSE_CA), OPEN_CA), DOUBLE_CLOSE) == Top
  {
    hide SkipWhile, Words;
    var a, b, c := CLOSE_CA, OPEN_CA, DOUBLE_CLOSE;
    assert forall k :: 0 <= k < |a| ==> !IsSpace(a[k]);
    OneWord(a);
    assert ReaderStep(Top, a) == In("/ca") by { assert a[1..|a| - 1] == "/ca"; }
    assert "</" + "/ca" + ">" == c;
    assert b[0] == '<' && c[0] == '<';
    assert SkipWhile(IsSpace, b, 0) == 0 && SkipWhile(IsSpace, c, 0) == 0 && b[0..] == b && c[0..] == c;
    assert ReaderStep(In("/ca"), b) == In("/ca");
    assert ReaderStep(In("/ca"), c) == Top;
  }
}
