/** Exactly which texts the decoder takes for an armored key, without following its walk. */
module PgpFraming {
  import opened Text
  import opened PgpPackets
  import opened PgpArmor
  import opened PgpDearmor

  /** One armor block in its surroundings; every line of it but the body's is given without its newline. */
  datatype Framing = Framing(
    before: string, beginRest: string, headers: seq<string>, blank: string, body: string, after: string)

  function FromHeaders(f: Framing): string
  {
    HeaderText(f.headers, "\n") + (f.blank + "\n" + (f.body + (END + f.after)))
  }

  function FramedText(f: Framing): string { f.before + (BEGIN + (f.beginRest + "\n" + FromHeaders(f))) }

  /** The first BEGIN marker, header lines up to the first blank one, the first END marker after them, and no BEGIN
      marker behind it. */
  predicate IsFraming(f: Framing)
  {
    && (forall i: nat :: i < |f.before| ==> !MatchAt(f.before + BEGIN, BEGIN, i))
    && OneLine(f.beginRest) && (forall h :: h in f.headers ==> OneLine(h) && !BlankLine(h)) && BlankLine(f.blank)
    && (forall i: nat :: i < |f.body| ==> !MatchAt(f.body + END, END, i))
    && (forall i: nat :: i < |f.after| ==> !MatchAt(f.after, BEGIN, i))
  }

  // --- A framed text is accepted ---

  lemma AfterOneLine(line: string, rest: string)
    requires OneLine(line)
    ensures SkipWhile(NotNewline, line + "\n" + rest, 0) == |line|
    ensures (line + "\n" + rest)[..|line|] == line && (line + "\n" + rest)[|line| + 1..] == rest
  {
    var t := line + "\n" + rest;
    assert forall k :: 0 <= k < |line| ==> t[k] == line[k] && line[k] in line;
    SkipUnique(NotNewline, t, 0, |line|);
  }

  lemma {:induction false} HeadersEnd(headers: seq<string>, blank: string, rest: string)
    requires BlankLine(blank) && forall h :: h in headers ==> OneLine(h) && !BlankLine(h)
    ensures AfterHeaders(HeaderText(headers, "\n") + (blank + "\n" + rest)) == Some(rest)
  {
    hide SkipWhile;
    var t := HeaderText(headers, "\n") + (blank + "\n" + rest);
    if headers == [] {
      assert t == blank + "\n" + rest;
      AfterOneLine(blank, rest);
    } else {
      var tail := HeaderText(headers[1..], "\n") + (blank + "\n" + rest);
      assert t == headers[0] + "\n" + tail;
      HeaderSkipped(headers[0], "\n", tail);
      HeadersEnd(headers[1..], blank, rest);
    }
  }

  lemma FramedIsUnframed(f: Framing)
    requires IsFraming(f)
    ensures Unframe(FramedText(f)) == Some(f.body)
  {
    hide Find, SkipWhile, AfterHeaders, HeaderText, BlankLine;
    var framed := f.body + (END + f.after);
    var t, s := FromHeaders(f), FramedText(f);
    FindBegin(f.before, BEGIN, f.beginRest + "\n" + t);
    assert s[|f.before|..] == (BEGIN + f.beginRest) + "\n" + t;
    MarkersAreOneLine();
    AfterOneLine(BEGIN + f.beginRest, t);
    HeadersEnd(f.headers, f.blank, framed);
    FindBegin(f.body, END, f.after);
    NoSecondBegin(f.body, END, BEGIN, f.after);
    assert framed[..|f.body|] == f.body;
  }

  // --- What is accepted is framed ---

  lemma {:induction false} HeadersFound(t: string, rest: string) returns (headers: seq<string>, blank: string)
    requires AfterHeaders(t) == Some(rest) && rest != ""
    ensures (forall h :: h in headers ==> OneLine(h) && !BlankLine(h)) && BlankLine(blank)
    ensures t == HeaderText(headers, "\n") + (blank + "\n" + rest)
    decreases |t|
  {
    var i := SkipWhile(NotNewline, t, 0);
    assert t[..i] + "\n" + t[i + 1..] == t;
    if BlankLine(t[..i]) {
      headers, blank := [], t[..i];
    } else {
      var more;
      more, blank := HeadersFound(t[i + 1..], rest);
      headers := [t[..i]] + more;
      assert headers[1..] == more;
    }
  }

  lemma Earlier(a: string, pattern: string, rest: string)
    requires forall i: nat :: i < |a| ==> !MatchAt(a + pattern + rest, pattern, i)
    ensures forall i: nat :: i < |a| ==> !MatchAt(a + pattern, pattern, i)
  {
    var longer, shorter := a + pattern + rest, a + pattern;
    forall i: nat | i < |a| ensures !MatchAt(shorter, pattern, i) {
      assert !MatchAt(longer, pattern, i);
      assert i + |pattern| <= |shorter| ==> longer[i..i + |pattern|] == shorter[i..i + |pattern|];
    }
  }

  lemma Later(a: string, pattern: string, rest: string)
    requires forall i: nat :: |a| <= i ==> !MatchAt(a + rest, pattern, i)
    ensures forall i: nat :: i < |rest| ==> !MatchAt(rest, pattern, i)
  {
    var longer := a + rest;
    forall i: nat | i < |rest| ensures !MatchAt(rest, pattern, i) {
      var k := |a| + i;
      assert !MatchAt(longer, pattern, k);
      assert i + |pattern| <= |rest| ==> longer[k..k + |pattern|] == rest[i..i + |pattern|];
    }
  }

  /** The text at a marker. */
  lemma SplitAt(s: string, pattern: string, i: nat)
    requires MatchAt(s, pattern, i)
    ensures s == s[..i] + (pattern + s[i + |pattern|..]) == s[..i] + pattern + s[i + |pattern|..]
  {
  }

  lemma BodyFound(rest: string, end: nat)
    requires Find(rest, END, 0) == Some(end) && Find(rest, BEGIN, end + |END|).None?
    ensures var after := rest[end + |END|..];
      && rest == rest[..end] + (END + after)
      && (forall i: nat :: i < end ==> !MatchAt(rest[..end] + END, END, i))
      && (forall i: nat :: i < |after| ==> !MatchAt(after, BEGIN, i))
  {
    hide Find;
    var after := rest[end + |END|..];
    SplitAt(rest, END, end);
    Earlier(rest[..end], END, after);
    assert rest == rest[..end] + END + after;
    Later(rest[..end] + END, BEGIN, after);
  }

  lemma LineFound(s: string, mark: string, j: nat)
    requires MatchAt(s, mark, 0) && OneLine(mark) && j == SkipWhile(NotNewline, s, 0) && j < |s|
    ensures |mark| <= j && OneLine(s[|mark|..j]) && s == mark + (s[|mark|..j] + "\n" + s[j + 1..])
  {
    hide SkipWhile;
    assert s[..|mark|] == mark;
    assert forall k :: 0 <= k < |mark| ==> s[k] == mark[k] && mark[k] in mark;
  }

  lemma UnframedIsFramed(s: string, body: string) returns (f: Framing)
    requires Unframe(s) == Some(body)
    ensures IsFraming(f) && f.body == body && FramedText(f) == s
  {
    hide Find, SkipWhile, AfterHeaders, HeaderText, BlankLine;
    var begin := Find(s, BEGIN, 0).value;
    var t := s[begin..];
    var j := SkipWhile(NotNewline, t, 0);
    var rest := AfterHeaders(t[j + 1..]).value;
    var end := Find(rest, END, 0).value;
    assert rest != "" by { NothingFound(); }
    var headers, blank := HeadersFound(t[j + 1..], rest);
    BodyFound(rest, end);
    SplitAt(s, BEGIN, begin);
    Earlier(s[..begin], BEGIN, s[begin + |BEGIN|..]);
    MatchMoves(s, BEGIN, begin);
    MarkersAreOneLine();
    LineFound(t, BEGIN, j);
    f := Framing(s[..begin], t[|BEGIN|..j], headers, blank, body, rest[end + |END|..]);
    assert FromHeaders(f) == t[j + 1..];
    assert s == s[..begin] + t;
  }

  lemma NothingFound()
    ensures Find("", END, 0).None?
  {
  }

  lemma MatchMoves(s: string, pattern: string, i: nat)
    requires MatchAt(s, pattern, i)
    ensures MatchAt(s[i..], pattern, 0)
  {
  }

  // --- Exactly ---

  ghost predicate FramedAs(s: string, body: string) { exists f :: IsFraming(f) && f.body == body && FramedText(f) == s }

  lemma UnframeIff(s: string, body: string)
    ensures Unframe(s) == Some(body) <==> FramedAs(s, body)
  {
    hide Unframe, IsFraming, FramedText;
    if Unframe(s) == Some(body) {
      var f := UnframedIsFramed(s, body);
    }
    if FramedAs(s, body) {
      var f :| IsFraming(f) && f.body == body && FramedText(f) == s;
      FramedIsUnframed(f);
    }
  }

  /** MAIN RESULT. Decoding succeeds exactly on one framed block, with no further BEGIN marker behind it, whose lines
      other than checksum lines join to base64 of whole groups, not empty and within the size limit; it yields those
      octets. */
  lemma DearmorIff(s: string, out: seq<byte>)
    ensures Dearmor(s) == Some(out) <==>
      exists body :: FramedAs(s, body) &&
        var b64 := Collect(Lines(body));
        b64 != "" && |b64| % 4 == 0 && |b64| <= 0x7FFF_FFFF && DecodeTrimmed(b64) == Some(out)
  {
    hide Unframe, FramedAs, Collect, Lines, DecodeTrimmed;
    if Dearmor(s) == Some(out) {
      UnframeIff(s, Unframe(s).value);
    }
    forall body | FramedAs(s, body) ensures Unframe(s) == Some(body) {
      UnframeIff(s, body);
    }
  }
}
