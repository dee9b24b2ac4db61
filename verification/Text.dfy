/** Strings, lines and character classes shared by the text-processing parts of the helper.
    A byte of the original is the character with that code. */
module Text {

  datatype Option<+T> = None | Some(value: T)

  /** The characters skipped by hand-written loops: space and tab. */
  predicate IsBlank(c: char) { c == ' ' || c == '\t' }

  /** The characters removed by trimming. */
  predicate IsTrimChar(c: char) { c == ' ' || c == '\t' || c == '\n' || c == '\r' }

  /** The white space of stream extraction (adds vertical tab and form feed). */
  predicate IsSpace(c: char) { IsTrimChar(c) || c as int == 11 || c as int == 12 }

  predicate NotSpace(c: char) { !IsSpace(c) }

  predicate NotNewline(c: char) { c != '\n' }

  /** First position at or after `from` whose character does not satisfy `p`, or the length. */
  function SkipWhile(p: char -> bool, s: string, from: nat): (i: nat)
    requires from <= |s|
    ensures from <= i <= |s|
    ensures forall k :: from <= k < i ==> p(s[k])
    ensures i < |s| ==> !p(s[i])
    decreases |s| - from
  {
    if from < |s| && p(s[from]) then SkipWhile(p, s, from + 1) else from
  }

  method SkipLoop(p: char -> bool, s: string, from: nat) returns (i: nat)
    requires from <= |s|
    ensures i == SkipWhile(p, s, from)
  {
    i := from;
    while i < |s| && p(s[i])
      invariant from <= i <= |s|
      invariant SkipWhile(p, s, from) == SkipWhile(p, s, i)
    {
      i := i + 1;
    }
  }

  function LowerChar(c: char): char
  {
    if 'A' <= c <= 'Z' then (c as int + 32) as char else c
  }

  function Lower(s: string): (r: string)
    ensures |r| == |s|
    ensures forall k :: 0 <= k < |s| ==> r[k] == LowerChar(s[k])
  {
    seq(|s|, i requires 0 <= i < |s| => LowerChar(s[i]))
  }

  predicate StartsWith(s: string, prefix: string)
  {
    |prefix| <= |s| && s[..|prefix|] == prefix
  }

  // --- Trimming ---

  function TrimEnd(s: string): (r: string)
    ensures |r| <= |s| && r == s[..|r|]
    ensures r != "" ==> !IsTrimChar(r[|r| - 1])
    ensures forall k :: |r| <= k < |s| ==> IsTrimChar(s[k])
  {
    if s != "" && IsTrimChar(s[|s| - 1]) then TrimEnd(s[..|s| - 1]) else s
  }

  function Trim(s: string): string
  {
    TrimEnd(s[SkipWhile(IsTrimChar, s, 0)..])
  }

  lemma TrimProperties(s: string)
    ensures var t := Trim(s);
      && (t != "" ==> !IsTrimChar(t[0]) && !IsTrimChar(t[|t| - 1]))
      && |t| <= |s| && (forall c :: c in t ==> c in s)
      && Trim(t) == t
  {
    var first := SkipWhile(IsTrimChar, s, 0);
    var t := Trim(s);
    if t != "" {
      assert t[0] == s[first];
      assert SkipWhile(IsTrimChar, t, 0) == 0;
      assert t[0..] == t;
    }
  }

  // --- Lines as getline delivers them ---

  function Lines(s: string): seq<string>
  {
    if s == "" then []
    else
      var i := SkipWhile(NotNewline, s, 0);
      if i == |s| then [s] else [s[..i]] + Lines(s[i + 1..])
  }

  function Unlines(ls: seq<string>): string
  {
    if ls == [] then "" else ls[0] + "\n" + Unlines(ls[1..])
  }

  /** One getline call on the unread text of a stream: the first line and what is left after its newline. */
  method GetLine(stream: string) returns (line: string, rest: string)
    requires stream != ""
    ensures |rest| < |stream|
    ensures Lines(stream) == [line] + Lines(rest)
  {
    var e := SkipLoop(NotNewline, stream, 0);
    if e == |stream| {
      line, rest := stream, "";
    } else {
      line, rest := stream[..e], stream[e + 1..];
    }
  }

  lemma SkipShift(p: char -> bool, s: string, from: nat)
    requires from <= |s|
    ensures SkipWhile(p, s[from..], 0) == SkipWhile(p, s, from) - from
  {
  }

  /** A position is the stop of a skip as soon as it looks like one. */
  lemma SkipUnique(p: char -> bool, s: string, from: nat, i: nat)
    requires from <= i <= |s|
    requires forall k :: from <= k < i ==> p(s[k])
    requires i < |s| ==> !p(s[i])
    ensures SkipWhile(p, s, from) == i
  {
  }

  lemma FirstLine(line: string, rest: string)
    requires '\n' !in line
    ensures Lines(line + "\n" + rest) == [line] + Lines(rest)
  {
    hide SkipWhile;
    var s := line + "\n" + rest;
    assert forall k :: 0 <= k < |line| ==> s[k] == line[k] && line[k] in line;
    SkipUnique(NotNewline, s, 0, |line|);
    assert s[..|line|] == line && s[|line| + 1..] == rest;
  }

  /** Joining newline-free lines and splitting again is the identity. */
  lemma {:induction false} LinesUnlines(ls: seq<string>)
    requires forall l :: l in ls ==> '\n' !in l
    ensures Lines(Unlines(ls)) == ls
  {
    if ls != [] {
      hide Lines;
      FirstLine(ls[0], Unlines(ls[1..]));
      LinesUnlines(ls[1..]);
    }
  }

  /** Every line is newline-free and made of the text's own characters. */
  lemma {:induction false} LinesChars(s: string)
    ensures forall l, c :: l in Lines(s) && c in l ==> c in s && c != '\n'
  {
    if s != "" {
      var i := SkipWhile(NotNewline, s, 0);
      if i < |s| {
        LinesChars(s[i + 1..]);
      }
    }
  }

  lemma {:induction false} UnlinesChars(ls: seq<string>)
    ensures forall c :: c in Unlines(ls) ==> c == '\n' || exists l :: l in ls && c in l
  {
    if ls != [] {
      UnlinesChars(ls[1..]);
      forall c | c in Unlines(ls) && c != '\n'
        ensures exists l :: l in ls && c in l
      {
        if c in ls[0] {
        } else {
          assert c in Unlines(ls[1..]);
          var l :| l in ls[1..] && c in l;
          assert l in ls;
        }
      }
    }
  }

  // --- Numbers ---

  function Digit(d: nat): char
    requires d < 10
  {
    ('0' as int + d) as char
  }

  function Decimal(n: nat): (s: string)
    ensures s != ""
  {
    if n < 10 then [Digit(n)] else Decimal(n / 10) + [Digit(n % 10)]
  }

  lemma {:induction false} DecimalInjective(m: nat, n: nat)
    ensures Decimal(m) == Decimal(n) ==> m == n
  {
    var s, t := Decimal(m), Decimal(n);
    if m < 10 && n < 10 {
      assert s[0] == Digit(m) && t[0] == Digit(n);
    } else if m >= 10 && n >= 10 {
      assert s[..|s| - 1] == Decimal(m / 10) && t[..|t| - 1] == Decimal(n / 10);
      assert s[|s| - 1] == Digit(m % 10) && t[|t| - 1] == Digit(n % 10);
      DecimalInjective(m / 10, n / 10);
    } else {
      DecimalLength(m);
      DecimalLength(n);
    }
  }

  lemma DecimalLength(n: nat)
    ensures |Decimal(n)| == 1 <==> n < 10
  {
  }

  // --- Words with single spaces between them ---

  function Join(words: seq<string>): string
  {
    if words == [] then "" else if |words| == 1 then words[0] else words[0] + " " + Join(words[1..])
  }

  predicate NotGap(c: char) { c != ' ' }

  function Split(s: string): seq<string>
  {
    if s == "" then []
    else
      var i := SkipWhile(NotGap, s, 0);
      if i == |s| then [s] else [s[..i]] + Split(s[i + 1..])
  }

  predicate IsWord(w: string) { w != "" && ' ' !in w }

  lemma SplitFirst(w: string, rest: string)
    requires IsWord(w)
    ensures Split(w + " " + rest) == [w] + Split(rest)
  {
    hide SkipWhile;
    var s := w + " " + rest;
    assert forall k :: 0 <= k < |w| ==> s[k] == w[k] && w[k] in w;
    SkipUnique(NotGap, s, 0, |w|);
    assert s[..|w|] == w && s[|w| + 1..] == rest;
  }

  lemma SplitLast(w: string)
    requires IsWord(w)
    ensures Split(w) == [w]
  {
    hide SkipWhile;
    assert forall k :: 0 <= k < |w| ==> w[k] in w;
    SkipUnique(NotGap, w, 0, |w|);
  }

  lemma {:induction false} SplitJoin(words: seq<string>)
    requires forall w :: w in words ==> IsWord(w)
    ensures Split(Join(words)) == words
  {
    hide Split, IsWord;
    if |words| == 1 {
      SplitLast(words[0]);
    } else if words != [] {
      SplitFirst(words[0], Join(words[1..]));
      SplitJoin(words[1..]);
    } else {
      assert Split("") == [] by { SplitNothing(); }
    }
  }

  lemma SplitNothing()
    ensures Split("") == []
  {
  }
}
