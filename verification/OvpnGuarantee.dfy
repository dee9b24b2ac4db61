/** What the reader meets at the top level of a filtered config, and what is kept, stated on words. */
module OvpnGuarantee {
  import opened Text
  import opened OvpnDirectives
  import opened OvpnFilter
  import opened OvpnReader
  import opened OvpnStability
  import opened OvpnWritten

  lemma KeptIsClean(v: Validators, raw: string, inside: bool, next: bool)
    requires Clean(raw) && (inside && !next ==> LineTag(Trim(raw)).Close?)
    ensures forall o :: o in KeptLine(v, Trim(raw), inside, next) ==>
      Clean(o) && Trim(o) == o && forall c :: c in o ==> c in Trim(raw)
  {
    hide Trim, LineTag, CutAfterGt, AllowedOutside;
    TrimProperties(raw);
    if inside && !next {
      CutKeepsTag(Trim(raw));
    }
  }

  lemma {:induction false} OutputIsClean(v: Validators, ls: seq<string>, inside: bool, allow: bool)
    requires AllClean(ls)
    ensures forall o :: o in FilterLines(v, ls, inside, allow) ==>
      Clean(o) && Trim(o) == o && exists l :: l in ls && forall c :: c in o ==> c in Trim(l)
  {
    hide Trim, LineTag, Clean, KeptLine, InlineBlockTags;
    if ls != [] {
      var line := Trim(ls[0]);
      var next := NextInside(line, inside, allow);
      KeptIsClean(v, ls[0], inside, next);
      OutputIsClean(v, ls[1..], next, allow);
      assert ls == [ls[0]] + ls[1..];
    }
  }

  lemma NoCr(line: string)
    requires Plain(line)
    ensures '\r' !in Trim(line)
  {
    var first := SkipWhile(IsTrimChar, line, 0);
    var t := Trim(line);
    TrimProperties(line);
    assert forall k :: 0 <= k < |t| ==> t[k] == line[first + k];
  }

  lemma NothingHidden(line: string)
    requires '\r' !in line
    ensures !HiddenArgument(line)
  {
  }

  /** MAIN RESULT. Every line the reader meets at the top level is empty or a comment, an inline tag, or a directive
      whose words are as written, but for a carriage return hiding the arguments of the bare-only directive; and where
      carriage returns stand only before newlines nothing is hidden. */
  lemma ReaderMeetsOnlyWritten(v: Validators, config: string)
    requires Accepts(config) && (Balanced(config) ==> ClosersInside(Lines(config), false))
    ensures var out := ReaderLines(Filtered(v, config));
      forall k :: 0 <= k < |out| && ReaderRun(Top, out[..k]).Top? ==> Admissible(v, out[k])
    ensures CrOnlyBeforeLf(config) ==>
      forall l :: l in ReaderLines(Filtered(v, config)) ==> !HiddenArgument(l)
  {
    hide Accepts, Balanced, ClosersInside, FilterLines, Filtered, ReaderLines, ReaderRun, Lines, Trim, Clean, Words;
    hide AllowedOutside, Admissible, CrOnlyBeforeLf, HiddenArgument, Plain, Unlines;
    var out := ReaderLines(Filtered(v, config));
    ReaderSeesOnlyAllowed(v, config);
    OutputLines(v, config);
    LinesAreClean(config);
    OutputIsClean(v, Lines(config), false, Balanced(config));
    forall k | 0 <= k < |out| && ReaderRun(Top, out[..k]).Top? ensures Admissible(v, out[k]) {
      AllowedOutsideIff(v, out[k]);
    }
    if CrOnlyBeforeLf(config) {
      AcceptedIsSafe(config);
      LinesArePlain(config);
      forall o | o in out ensures !HiddenArgument(o) {
        var l :| l in Lines(config) && forall c :: c in o ==> c in Trim(l);
        NoCr(l);
        NothingHidden(o);
      }
    }
  }

  lemma AcceptedIsSafe(config: string)
    requires Accepts(config)
    ensures !Unsafe(config)
  {
  }

  /** The converse: whatever is written so is kept, wherever it stands. */
  lemma {:induction false} WrittenIsKept(v: Validators, ls: seq<string>, inside: bool, allow: bool, k: nat)
    requires AllClean(ls) && k < |ls| && Written(v, Words(Trim(ls[k])))
    ensures Trim(ls[k]) in FilterLines(v, ls, inside, allow)
  {
    hide Trim, LineTag, Clean, Words, Written, AllowedOutside, InlineBlockTags, CutAfterGt;
    var line := Trim(ls[0]);
    if k == 0 {
      TrimProperties(ls[0]);
      KeptIsClean(v, ls[0], false, true);
      TrimmedIsClean(ls[0]);
      WrittenIsNoTag(v, line);
      AllowedOutsideIff(v, line);
    } else {
      WrittenIsKept(v, ls[1..], NextInside(line, inside, allow), allow, k - 1);
    }
  }

  lemma TrimmedIsClean(raw: string)
    requires Clean(raw)
    ensures Clean(Trim(raw))
  {
    hide Trim;
    TrimProperties(raw);
  }

  lemma WrittenIsNoTag(v: Validators, line: string)
    requires Written(v, Words(line)) && Trim(line) == line && Clean(line)
    ensures LineTag(line) == NoTag
  {
    hide Words, Trim, Clean, IsAllowedName, Known;
    NoWords(line);
    NameAndWords(line);
    StartsAtOnce(line);
    AllowedNameStartsWithLetter(DirectiveName(line));
    assert line[0] != '<' by { NotATag(line); }
    NoTagAtStart(line);
  }

  lemma NotATag(line: string)
    requires NameStart(line) == 0 || line[0] == '-'
    requires line != "" && |DirectiveName(line)| >= 2 && 'a' <= DirectiveName(line)[0] <= 'z'
    ensures line[0] != '<'
  {
    if NameStart(line) == 0 {
      assert DirectiveName(line)[0] == LowerChar(line[0]);
    }
  }

  const HIDING := "auth-user-pass\rx"

  lemma HidingPositions()
    ensures var l := HIDING;
      && |l| == 16 && l[..14] == "auth-user-pass" && l[14] == '\r' && l[15] == 'x' && l[15..16] == "x" && l[0] == 'a'
      && (forall k :: 0 <= k < 14 ==> !IsSpace(l[k])) && Lower(l[..14]) == "auth-user-pass" && Short(l)
  {
  }

  lemma HidingName()
    ensures var l := HIDING;
      && NameEnd(l) == 14 && DirectiveName(l) == "auth-user-pass" && CrAfterName(l) && !IsEmptyOrComment(l)
  {
    hide SkipWhile, Lower;
    var l := HIDING;
    HidingPositions();
    SkipUnique(IsBlank, l, 0, 0);
    SkipUnique(NotNameEnd, l, 0, 14);
    SkipUnique(IsBlank, l, 14, 14);
    assert l[0..14] == l[..14];
  }

  lemma HidingShape()
    ensures Short(HIDING) && Clean(HIDING) && Trim(HIDING) == HIDING && LineTag(HIDING) == NoTag
  {
    hide SkipWhile, InlineTag, Trim, LineTag;
    HidingPositions();
    BareLine(HIDING);
    HidingName();
    NoTagAtStart(HIDING) by { SkipUnique(IsBlank, HIDING, 0, 0); }
  }

  lemma HidingWords()
    ensures Words(HIDING) == ["auth-user-pass", "x"]
  {
    hide SkipWhile, Words, Trim, LineTag, Clean, Short, NameEnd, DirectiveName, Lower, CrAfterName, IsEmptyOrComment;
    var l := HIDING;
    HidingShape();
    HidingName();
    HidingPositions();
    NameAndWords(l);
    WordsFrom(l, 14);
    SkipUnique(IsSpace, l, 14, 15);
    SkipUnique(NotSpace, l, 15, 16);
    WordsFrom(l, 16);
  }

  lemma HidingFacts()
    ensures var l := HIDING;
      && Short(l) && Clean(l) && Trim(l) == l && !IsEmptyOrComment(l) && LineTag(l) == NoTag && HiddenArgument(l)
      && Words(l) == ["auth-user-pass", "x"]
  {
    hide SkipWhile, Words, Trim, LineTag, Clean, Short, NameEnd, DirectiveName, CrAfterName, IsEmptyOrComment;
    HidingShape();
    HidingName();
    HidingWords();
  }

  lemma HidingIsKept(v: Validators, allow: bool)
    ensures FilterLines(v, [HIDING], false, allow) == [HIDING]
  {
    hide *;
    HidingFacts();
    AllowedOutsideIff(v, HIDING);
    HidingShown(v, allow);
    WalkOne(v, HIDING, [], false, allow);
    assert [HIDING] + [] == [HIDING];
  }

  lemma HidingShown(v: Validators, allow: bool)
    requires LineTag(HIDING) == NoTag && HiddenArgument(HIDING)
    requires AllowedOutside(v, HIDING) <==> Admissible(v, HIDING)
    ensures NextInside(HIDING, false, allow) == false && KeptLine(v, HIDING, false, false) == [HIDING]
  {
    hide LineTag, HiddenArgument, Words, Written, AllowedOutside;
  }

  lemma HidingIsNotWritten(v: Validators)
    ensures !Written(v, ["auth-user-pass", "x"])
  {
    hide IsAllowedName;
    assert Directive("auth-user-pass") == "auth-user-pass" by { HidingPositions(); }
  }

  /** A carriage return can hide an argument: the line is kept as bare, and the reader finds two words in it. */
  lemma CrHidesArgument(v: Validators)
    ensures var config := Unlines([HIDING]);
      && Accepts(config) && ReaderLines(Filtered(v, config)) == [HIDING]
      && Words(HIDING) == ["auth-user-pass", "x"] && HiddenArgument(HIDING) && !Written(v, Words(HIDING))
  {
    hide *;
    HidingFacts();
    HidingIsNotWritten(v);
    HidingIsKept(v, BalancedFrom(Tags([HIDING]), None));
    Accepted(v, [HIDING]);
    AcceptedText(v, Unlines([HIDING]), Unlines([HIDING]));
  }
}
