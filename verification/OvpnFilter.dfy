/** The OpenVPN config filter: inline-block tags, the balance pre-scan and the line walk. */
module OvpnFilter {
  import opened Text
  import opened OvpnDirectives

  // --- Inline block tags ---

  function InlineBlockTags(): set<string>
  {
    {"ca", "cert", "key", "tls-auth", "tls-crypt", "tls-crypt-v2", "pkcs12", "extra-certs", "auth-user-pass",
     "secret", "dh", "http-proxy-user-pass"}
  }

  /** Characters of the known tag names. */
  predicate IsTagChar(c: char) { 'a' <= c <= 'z' || '0' <= c <= '9' || c == '-' }

  lemma KnownTagChars(name: string)
    requires name in InlineBlockTags()
    ensures name != "" && forall k :: 0 <= k < |name| ==> IsTagChar(name[k])
  {
  }

  datatype Tag = NoTag | Open(name: string) | Close(name: string)

  predicate InTagName(c: char) { c != '>' && c != ' ' && c != '\t' }

  /** The tag read at the head of `s`. An opener must stand alone on its line; a closer may be followed by
      anything. Names are lower-cased. */
  function InlineTag(s: string): Tag
  {
    if s == "" || s[0] != '<' then NoTag
    else
      var closing := |s| > 1 && s[1] == '/';
      var nameStart := if closing then 2 else 1;
      var e := SkipWhile(InTagName, s, nameStart);
      if e == |s| || s[e] != '>' || e == nameStart then NoTag
      else if closing then Close(Lower(s[nameStart..e]))
      else if SkipWhile(IsTrimChar, s, e + 1) < |s| then NoTag
      else Open(Lower(s[nameStart..e]))
  }

  predicate Known(t: Tag) { !t.NoTag? && t.name in InlineBlockTags() }

  /** The tag of a line after its leading blanks. */
  function LineTag(line: string): Tag { InlineTag(line[SkipWhile(IsBlank, line, 0)..]) }

  /** Openers are read exactly when the line is the single token `<name>` followed by white space only. */
  lemma OpenIff(s: string, m: string)
    requires m != "" && m[0] != '/' && (forall c :: c in m ==> InTagName(c))
    ensures StartsWith(s, "<" + m + ">") && (forall k :: |m| + 2 <= k < |s| ==> IsTrimChar(s[k])) <==>
            InlineTag(s) == Open(Lower(m)) && s[1..1 + |m|] == m
  {
    if StartsWith(s, "<" + m + ">") && forall k :: |m| + 2 <= k < |s| ==> IsTrimChar(s[k]) {
      TagPrefix(s, m, 1);
      SkipUnique(IsTrimChar, s, |m| + 2, |s|);
    }
    if InlineTag(s) == Open(Lower(m)) && s[1..1 + |m|] == m {
      assert s[..|m| + 2] == "<" + m + ">";
    }
  }

  /** Closers are read exactly on the raw prefix `</name>`, whatever follows. */
  lemma CloseIff(s: string, m: string)
    requires m != "" && (forall c :: c in m ==> InTagName(c))
    ensures StartsWith(s, "</" + m + ">") <==> InlineTag(s) == Close(Lower(m)) && s[2..2 + |m|] == m
  {
    if StartsWith(s, "</" + m + ">") {
      TagPrefix(s, m, 2);
    }
    if InlineTag(s) == Close(Lower(m)) && s[2..2 + |m|] == m {
      assert s[..|m| + 3] == "</" + m + ">";
    }
  }

  lemma TagPrefix(s: string, m: string, start: nat)
    requires 1 <= start <= 2 && m != "" && (forall c :: c in m ==> InTagName(c))
    requires StartsWith(s, (if start == 1 then "<" else "</") + m + ">")
    ensures start + |m| < |s| && s[start..start + |m|] == m && s[start + |m|] == '>' && s[0] == '<'
    ensures start == 1 ==> s[1] == m[0]
    ensures start == 2 ==> s[1] == '/'
    ensures SkipWhile(InTagName, s, start) == start + |m|
  {
    var p := (if start == 1 then "<" else "</") + m + ">";
    assert forall k :: 0 <= k < |p| ==> s[k] == p[k] by { assert s[..|p|] == p; }
    assert forall k :: start <= k < start + |m| ==> s[k] == m[k - start] && m[k - start] in m;
    SkipUnique(InTagName, s, start, start + |m|);
  }

  method ExtractInlineBlockTag(line: string, start: nat) returns (tag: string, isClosing: bool)
    requires start <= |line|
    ensures InlineTag(line[start..]) ==
            if tag == "" then NoTag else if isClosing then Close(tag) else Open(tag)
  {
    hide SkipWhile;
    tag, isClosing := "", false;
    if start >= |line| || line[start] != '<' {
      return;
    }
    var closing := false;
    var pos := start + 1;
    if pos < |line| && line[pos] == '/' {
      closing := true;
      pos := pos + 1;
    }
    var nameStart := pos;
    pos := SkipLoop(InTagName, line, pos);
    SkipUnique(InTagName, line[start..], nameStart - start, pos - start);
    if pos >= |line| || line[pos] != '>' {
      return;
    }
    tag := line[nameStart..pos];
    assert line[start..][nameStart - start..pos - start] == tag;
    pos := pos + 1;
    if !closing {
      var rest := SkipLoop(IsTrimChar, line, pos);
      SkipUnique(IsTrimChar, line[start..], pos - start, rest - start);
      if rest < |line| {
        tag := "";
        return;
      }
    }
    tag := Lower(tag);
    isClosing := closing;
  }

  // --- The balance pre-scan ---

  lemma NoTagAtStart(line: string)
    requires var start := SkipWhile(IsBlank, line, 0); start == |line| || line[start] != '<'
    ensures LineTag(line) == NoTag
  {
  }

  /** The known tags of the lines, in order. */
  function Tags(ls: seq<string>): seq<Tag>
  {
    if ls == [] then []
    else (if Known(LineTag(ls[0])) then [LineTag(ls[0])] else []) + Tags(ls[1..])
  }

  /** Openers and closers alternate and pair up by name; `cur` is the block open so far. */
  predicate BalancedFrom(tags: seq<Tag>, cur: Option<string>)
  {
    if tags == [] then cur.None?
    else match tags[0]
      case Open(n) => cur.None? && BalancedFrom(tags[1..], Some(n))
      case Close(n) => cur == Some(n) && BalancedFrom(tags[1..], None)
      case NoTag => BalancedFrom(tags[1..], cur)
  }

  /** What the pre-scan does with one tag. */
  predicate BalanceStep(t: Tag, tags: seq<Tag>, cur: Option<string>)
  {
    if !Known(t) then BalancedFrom(tags, cur)
    else if t.Open? then cur.None? && BalancedFrom(tags, Some(t.name))
    else cur == Some(t.name) && BalancedFrom(tags, None)
  }

  lemma BalanceCons(line: string, rest: seq<string>, cur: Option<string>)
    ensures BalancedFrom(Tags([line] + rest), cur) == BalanceStep(LineTag(line), Tags(rest), cur)
  {
    var tags := Tags([line] + rest);
    assert ([line] + rest)[1..] == rest;
    if Known(LineTag(line)) {
      assert tags[1..] == Tags(rest);
    } else {
      assert tags == Tags(rest);
    }
  }

  predicate Balanced(config: string) { BalancedFrom(Tags(Lines(config)), None) }

  method HasBalancedInlineBlocks(config: string) returns (r: bool)
    ensures r == Balanced(config)
  {
    hide SkipWhile, InlineTag, InlineBlockTags;
    var inside, currentTag := false, "";
    var stream := config;
    while stream != ""
      invariant Balanced(config) ==
        BalancedFrom(Tags(Lines(stream)), if inside then Some(currentTag) else None)
      decreases |stream|
    {
      var line;
      line, stream := GetLine(stream);
      BalanceCons(line, Lines(stream), if inside then Some(currentTag) else None);
      var start := SkipLoop(IsBlank, line, 0);
      if start >= |line| || line[start] != '<' {
        NoTagAtStart(line);
        continue;
      }
      var tag, isClosing := ExtractInlineBlockTag(line, start);
      if tag == "" || tag !in InlineBlockTags() {
        continue;
      }
      if !isClosing {
        if inside {
          return false;
        }
        inside := true;
        currentTag := tag;
      } else {
        if !inside || tag != currentTag {
          return false;
        }
        inside := false;
        currentTag := "";
      }
    }
    r := !inside;
  }

  // --- One line ---

  predicate IsComment(c: char) { c == '#' || c == ';' }

  predicate IsEmptyOrComment(line: string)
  {
    var start := SkipWhile(IsBlank, line, 0);
    start == |line| || IsComment(line[start])
  }

  /** The lines allowed outside every inline block. */
  predicate AllowedOutside(v: Validators, line: string)
  {
    IsEmptyOrComment(line) || Known(LineTag(line)) || DirectiveAllowed(v, line)
  }

  function NextInside(line: string, inside: bool, allowInlineBlocks: bool): bool
  {
    if allowInlineBlocks && Known(LineTag(line)) then LineTag(line).Open? else inside
  }

  method IsAllowed(v: Validators, line: string, insideInlineBlock: bool, allowInlineBlocks: bool)
    returns (allowed: bool, nowInside: bool)
    ensures allowed == (insideInlineBlock || AllowedOutside(v, line))
    ensures nowInside == NextInside(line, insideInlineBlock, allowInlineBlocks)
  {
    hide SkipWhile, InlineBlockTags, IsAllowedName, Words, HasArgument;
    hide IsDhcpOptionValueAllowed, IsDnsDirectiveValueAllowed;
    nowInside := insideInlineBlock;
    var start := SkipLoop(IsBlank, line, 0);
    if start >= |line| || line[start] == '#' || line[start] == ';' {
      return true, nowInside;
    }
    if line[start] == '<' {
      var tag, isClosing := ExtractInlineBlockTag(line, start);
      if tag != "" && tag in InlineBlockTags() {
        if allowInlineBlocks {
          nowInside := !isClosing;
        }
        return true, nowInside;
      }
    }
    if insideInlineBlock {
      return true, nowInside;
    }
    var name := ExtractDirectiveName(line);
    if name == "" || !IsAllowedName(name) {
      if name == "" && IsAllowedName(name) { AllowedNameStartsWithLetter(name); }
      return false, nowInside;
    }
    if IsBareOnly(name) {
      var args := HasNonCommentArgument(line);
      if args {
        return false, nowInside;
      }
    }
    if name == "dhcp-option" && !IsDhcpOptionValueAllowed(v, line) {
      return false, nowInside;
    }
    if name == "dns" && !IsDnsDirectiveValueAllowed(v, line) {
      return false, nowInside;
    }
    allowed := true;
  }

  // --- Rejections ---

  predicate IsUnsafeByte(c: char)
  {
    c != '\t' && c != '\n' && c != '\r' && (c as int < 0x20 || c as int == 0x7f)
  }

  predicate Unsafe(config: string) { exists c :: c in config && IsUnsafeByte(c) }

  /** A line of a config without such bytes. */
  predicate Clean(line: string) { forall c :: c in line ==> c != '\n' && !IsUnsafeByte(c) }

  method HasUnsafeControlBytes(config: string) returns (r: bool)
    ensures r == Unsafe(config)
  {
    for i := 0 to |config|
      invariant forall c :: c in config[..i] ==> !IsUnsafeByte(c)
    {
      if IsUnsafeByte(config[i]) {
        return true;
      }
    }
    assert config[..|config|] == config;
    r := false;
  }

  const OPTION_LINE_SIZE: nat := 4096
  const MAX_LINE: nat := OPTION_LINE_SIZE - 2

  predicate Overlong(config: string) { exists l :: l in Lines(config) && |l| > MAX_LINE }

  /** The counting loop sees the current line grow past the limit exactly when the line it ends up in does. */
  method HasOverlongLine(config: string) returns (r: bool)
    ensures r == Overlong(config)
  {
    hide Overlong, SkipWhile;
    var lineLength, i := 0, 0;
    ghost var start := 0;
    assert config[0..] == config;
    while i < |config|
      invariant start + lineLength == i <= |config|
      invariant lineLength <= MAX_LINE
      invariant NotNewlineIn(config, start, i)
      invariant Overlong(config) == Overlong(config[start..])
    {
      if config[i] == '\n' {
        SplitAtNewline(config, start, i);
        lineLength, start := 0, i + 1;
      } else {
        lineLength := lineLength + 1;
        if lineLength > MAX_LINE {
          FirstLineLength(config[start..], lineLength);
          return true;
        }
      }
      i := i + 1;
    }
    ShortLastLine(config, start);
    r := false;
  }

  lemma ShortLastLine(s: string, from: nat)
    requires from <= |s| && NotNewlineIn(s, from, |s|) && |s| - from <= MAX_LINE
    ensures !Overlong(s[from..])
  {
    var t := s[from..];
    if t != "" {
      SkipUnique(NotNewline, t, 0, |t|);
    }
  }

  predicate NotNewlineIn(s: string, from: nat, to: nat)
    requires from <= to <= |s|
  {
    forall k :: from <= k < to ==> s[k] != '\n'
  }

  lemma SplitAtNewline(s: string, from: nat, to: nat)
    requires from <= to < |s| && NotNewlineIn(s, from, to) && s[to] == '\n' && to - from <= MAX_LINE
    ensures Overlong(s[from..]) == Overlong(s[to + 1..])
  {
    var t := s[from..];
    SkipUnique(NotNewline, t, 0, to - from);
    assert t[to - from + 1..] == s[to + 1..];
  }

  lemma FirstLineLength(t: string, n: nat)
    requires n <= |t| && NotNewlineIn(t, 0, n) && n > MAX_LINE
    ensures Overlong(t)
  {
    var i := SkipWhile(NotNewline, t, 0);
    assert i >= n;
    assert (if i == |t| then t else t[..i]) in Lines(t);
  }

  // --- The whole filter ---

  predicate NotGt(c: char) { c != '>' }

  /** The line up to and including its first '>', or the line itself. */
  function CutAfterGt(line: string): string
  {
    var gt := SkipWhile(NotGt, line, 0);
    if gt < |line| then line[..gt + 1] else line
  }

  function FilterLines(v: Validators, ls: seq<string>, inside: bool, allowInlineBlocks: bool): seq<string>
  {
    if ls == [] then []
    else
      var line := Trim(ls[0]);
      var next := NextInside(line, inside, allowInlineBlocks);
      KeptLine(v, line, inside, next) + FilterLines(v, ls[1..], next, allowInlineBlocks)
  }

  /** What the line walk keeps of one line. */
  function KeptLine(v: Validators, line: string, inside: bool, next: bool): seq<string>
  {
    if !inside && !AllowedOutside(v, line) then []
    else if inside && !next then [CutAfterGt(line)]
    else [line]
  }

  lemma FilterStep(v: Validators, kept: seq<string>, raw: string, rest: seq<string>, inside: bool, allow: bool)
    ensures var line := Trim(raw);
      var next := NextInside(line, inside, allow);
      kept + FilterLines(v, [raw] + rest, inside, allow) ==
      kept + KeptLine(v, line, inside, next) + FilterLines(v, rest, next, allow)
  {
  }

  function TrimAll(ls: seq<string>): seq<string>
  {
    if ls == [] then [] else [Trim(ls[0])] + TrimAll(ls[1..])
  }

  /** The balance of the trimmed lines, which the walk goes by; the pre-scan goes by the raw ones. */
  predicate TrimmedBalanced(config: string) { BalancedFrom(Tags(TrimAll(Lines(config))), None) }

  /** Neither of the two rejections applies. */
  predicate Accepts(config: string) { !Unsafe(config) && !Overlong(config) }

  /** The text the walk produces. */
  function Filtered(v: Validators, config: string): string
  {
    Unlines(FilterLines(v, Lines(config), false, Balanced(config)))
  }

  function Filter(v: Validators, config: string): Option<string>
  {
    if Accepts(config) then Some(Filtered(v, config)) else None
  }

  lemma {:induction false} UnlinesAppend(a: seq<string>, l: string)
    ensures Unlines([]) == ""
    ensures Unlines(a + [l]) == Unlines(a) + l + "\n"
  {
    if a == [] {
      assert [l][1..] == [];
      assert a + [l] == [l];
    } else {
      assert (a + [l])[1..] == a[1..] + [l];
      UnlinesAppend(a[1..], l);
    }
  }

  method FilterConfig(v: Validators, config: string) returns (out: Option<string>)
    ensures out == Filter(v, config)
  {
    hide SkipWhile, InlineTag, InlineBlockTags, AllowedOutside, CutAfterGt, Trim;
    var unsafeBytes := HasUnsafeControlBytes(config);
    if unsafeBytes {
      return None;
    }
    var overlong := HasOverlongLine(config);
    if overlong {
      return None;
    }
    var balancedBlocks := HasBalancedInlineBlocks(config);
    var result, insideInlineBlock := "", false;
    var stream := config;
    ghost var kept: seq<string> := [];
    ghost var all := FilterLines(v, Lines(config), false, balancedBlocks);
    while stream != ""
      invariant result == Unlines(kept)
      invariant all == kept + FilterLines(v, Lines(stream), insideInlineBlock, balancedBlocks)
      decreases |stream|
    {
      var line;
      line, stream := GetLine(stream);
      FilterStep(v, kept, line, Lines(stream), insideInlineBlock, balancedBlocks);
      line := Trim(line);
      var wasInside := insideInlineBlock;
      var allowed;
      allowed, insideInlineBlock := IsAllowed(v, line, insideInlineBlock, balancedBlocks);
      if !allowed {
        assert kept + [] == kept;
        continue;
      }
      if wasInside && !insideInlineBlock {
        line := CutAfterGt(line);
      }
      UnlinesAppend(kept, line);
      kept := kept + [line];
      result := result + line + "\n";
    }
    assert all == kept;
    out := Some(result);
  }
}
