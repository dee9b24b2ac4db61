/** Removing the armor from a public key block, and what exactly it undoes. */
module PgpDearmor {
  import opened Text
  import opened PgpPackets
  import opened PgpArmor

  const BEGIN := "-----BEGIN PGP PUBLIC KEY BLOCK-----"
  const END := "-----END PGP PUBLIC KEY BLOCK-----"
  const INT_MAX: nat := 0x7FFF_FFFF

  predicate MatchAt(s: string, pattern: string, i: nat)
  {
    i + |pattern| <= |s| && s[i..i + |pattern|] == pattern
  }

  /** First occurrence. */
  function Find(s: string, pattern: string, from: nat): (r: Option<nat>)
    ensures r.Some? ==> from <= r.value && MatchAt(s, pattern, r.value)
    ensures forall i: nat :: from <= i && (r.None? || i < r.value) ==> !MatchAt(s, pattern, i)
    decreases |s| - from
  {
    if from + |pattern| > |s| then None
    else if MatchAt(s, pattern, from) then Some(from)
    else Find(s, pattern, from + 1)
  }

  // --- The decoder ---

  /** The text after the first line break. */
  function AfterLine(t: string): Option<string>
  {
    var i := SkipWhile(NotNewline, t, 0);
    if i == |t| then None else Some(t[i + 1..])
  }

  predicate BlankLine(line: string) { line == "" || line == "\r" }

  /** The text after the first blank line. */
  function AfterHeaders(t: string): Option<string>
    decreases |t|
  {
    if t == "" then Some("")
    else
      var i := SkipWhile(NotNewline, t, 0);
      if i == |t| then None else if BlankLine(t[..i]) then Some(t[i + 1..]) else AfterHeaders(t[i + 1..])
  }

  function StripCr(line: string): string
  {
    if line != "" && line[|line| - 1] == '\r' then line[..|line| - 1] else line
  }

  /** The base64 of one body line; checksum lines start with '='. */
  function LineData(line: string): string
  {
    var l := StripCr(line);
    if l != "" && l[0] == '=' then "" else l
  }

  function Collect(lines: seq<string>): string
  {
    if lines == [] then "" else LineData(lines[0]) + Collect(lines[1..])
  }

  /** The body text of the only armor block, if the framing is right. */
  function Unframe(s: string): Option<string>
  {
    var begin := Find(s, BEGIN, 0);
    if begin.None? then None
    else
      var afterBegin := AfterLine(s[begin.value..]);
      if afterBegin.None? then None
      else
        var rest := AfterHeaders(afterBegin.value);
        if rest.None? then None
        else
          var end := Find(rest.value, END, 0);
          if end.None? || Find(rest.value, BEGIN, end.value + |END|).Some? then None
          else Some(rest.value[..end.value])
  }

  function Decode(b64: string): Option<seq<byte>>
  {
    if b64 == "" || |b64| % 4 != 0 || |b64| > INT_MAX then None else DecodeTrimmed(b64)
  }

  function Dearmor(s: string): Option<seq<byte>>
  {
    var body := Unframe(s);
    if body.None? then None else Decode(Collect(Lines(body.value)))
  }

  method SkipHeaders(text: string) returns (r: Option<string>)
    ensures r == AfterHeaders(text)
  {
    var rest := text;
    while rest != ""
      invariant AfterHeaders(text) == AfterHeaders(rest)
      decreases |rest|
    {
      var eol := SkipLoop(NotNewline, rest, 0);
      if eol == |rest| {
        return None;
      }
      var line := rest[..eol];
      rest := rest[eol + 1..];
      if line == "" || line == "\r" {
        return Some(rest);
      }
    }
    r := Some(rest);
  }

  method CollectBase64(body: string) returns (b64: string)
    ensures b64 == Collect(Lines(body))
  {
    hide LineData, Collect, Lines;
    b64 := "";
    CollectNothing();
    var stream := body;
    while stream != ""
      invariant Collect(Lines(body)) == b64 + Collect(Lines(stream))
      decreases |stream|
    {
      var line;
      line, stream := GetLine(stream);
      CollectCons(line, Lines(stream));
      LineDataMeans(line);
      if line != "" && line[|line| - 1] == '\r' {
        line := line[..|line| - 1];
      }
      if line == "" {
        continue;
      }
      if line[0] == '=' {
        continue;
      }
      b64 := b64 + line;
    }
  }

  lemma CollectNothing()
    ensures Collect(Lines("")) == ""
  {
  }

  lemma LineDataMeans(line: string)
    ensures var l := StripCr(line); LineData(line) == if l != "" && l[0] == '=' then "" else l
  {
  }

  lemma CollectCons(line: string, rest: seq<string>)
    ensures Collect([line] + rest) == LineData(line) + Collect(rest)
  {
    assert ([line] + rest)[1..] == rest;
  }

  method DearmorPgp(armored: string) returns (out: Option<seq<byte>>)
    ensures out == Dearmor(armored)
  {
    hide Find, AfterHeaders, Collect, DecodeBlock, Lines, PadCount;
    var begin := Find(armored, BEGIN, 0);
    if begin.None? {
      return None;
    }
    var s := armored[begin.value..];
    var afterBeginLine := SkipLoop(NotNewline, s, 0);
    if afterBeginLine == |s| {
      return None;
    }
    var rest := SkipHeaders(s[afterBeginLine + 1..]);
    if rest.None? {
      return None;
    }
    var end := Find(rest.value, END, 0);
    if end.None? {
      return None;
    }
    if Find(rest.value, BEGIN, end.value + |END|).Some? {
      return None;
    }
    var b64 := CollectBase64(rest.value[..end.value]);
    if b64 == "" || |b64| % 4 != 0 || |b64| > INT_MAX {
      return None;
    }
    var decoded := DecodeBlock(b64);
    if decoded.None? {
      return None;
    }
    var trimmed := TrimPadding(b64, decoded.value);
    out := Some(trimmed);
  }

  method TrimPadding(b64: string, decoded: seq<byte>) returns (out: seq<byte>)
    ensures out == if |decoded| >= PadCount(b64) then decoded[..|decoded| - PadCount(b64)] else decoded
  {
    var pad := 0;
    while pad < 2 && pad < |b64| && b64[|b64| - 1 - pad] == '='
      invariant 0 <= pad <= 2 && pad <= |b64|
      invariant forall k :: |b64| - pad <= k < |b64| ==> b64[k] == '='
    {
      pad := pad + 1;
    }
    assert pad == PadCount(b64);
    out := if |decoded| >= pad then decoded[..|decoded| - pad] else decoded;
  }

  // --- The encoder's line layout ---

  /** Everything an armored key may vary in. */
  datatype Layout = Layout(
    before: string,
    headers: seq<string>,
    crlf: bool,
    width: nat,
    checksum: Option<string>,
    after: string)

  function Eol(l: Layout): string { if l.crlf then "\r\n" else "\n" }

  function HeaderText(headers: seq<string>, eol: string): string
  {
    if headers == [] then "" else headers[0] + eol + HeaderText(headers[1..], eol)
  }

  /** The base64 in lines of `width` characters. */
  function BodyText(b64: string, width: nat, eol: string): string
    requires width > 0
  {
    if b64 == "" then ""
    else if |b64| <= width then b64 + eol
    else b64[..width] + eol + BodyText(b64[width..], width, eol)
  }

  function ChecksumText(l: Layout): string { if l.checksum.Some? then "=" + l.checksum.value + Eol(l) else "" }

  function Armor(b64: string, l: Layout): string
    requires l.width > 0
  {
    l.before +
    (BEGIN + Eol(l) + (HeaderText(l.headers, Eol(l)) + Eol(l) +
      ((BodyText(b64, l.width, Eol(l)) + ChecksumText(l)) + (END + l.after))))
  }

  predicate OneLine(s: string) { '\n' !in s }

  predicate WellFormed(l: Layout)
  {
    && l.width > 0
    && (forall i: nat :: i < |l.before| ==> !MatchAt(l.before + BEGIN, BEGIN, i))
    && (forall h :: h in l.headers ==> OneLine(h) && !BlankLine(h))
    && (l.checksum.Some? ==> OneLine(l.checksum.value) && '-' !in l.checksum.value)
    && (forall i: nat :: i < |l.after| ==> !MatchAt(l.after, BEGIN, i))
  }

  /** Some body line begins with padding, so the decoder takes it for a checksum. */
  predicate PadLine(b64: string, width: nat)
    requires width > 0
  {
    b64 != "" && (b64[0] == '=' || (|b64| > width && PadLine(b64[width..], width)))
  }

  // --- The framing is undone ---

  lemma SkipToEol(a: string, eol: string, rest: string)
    requires OneLine(a) && (eol == "\n" || eol == "\r\n")
    ensures var t := a + eol + rest;
      SkipWhile(NotNewline, t, 0) == |a| + |eol| - 1 && t[|a| + |eol|..] == rest
    ensures (a + eol + rest)[..|a| + |eol| - 1] == if eol == "\n" then a else a + "\r"
  {
    var t := a + eol + rest;
    assert forall k :: 0 <= k < |a| ==> t[k] == a[k] && a[k] in a;
    SkipUnique(NotNewline, t, 0, |a| + |eol| - 1);
  }

  lemma BlankEndsHeaders(eol: string, rest: string)
    requires eol == "\n" || eol == "\r\n"
    ensures AfterHeaders(eol + rest) == Some(rest)
  {
    hide SkipWhile;
    assert "" + eol + rest == eol + rest;
    SkipToEol("", eol, rest);
  }

  lemma HeaderSkipped(h: string, eol: string, rest: string)
    requires (eol == "\n" || eol == "\r\n") && OneLine(h) && !BlankLine(h)
    ensures AfterHeaders(h + eol + rest) == AfterHeaders(rest)
  {
    hide SkipWhile;
    SkipToEol(h, eol, rest);
  }

  lemma {:induction false} HeadersUndone(headers: seq<string>, eol: string, rest: string)
    requires (eol == "\n" || eol == "\r\n") && forall h :: h in headers ==> OneLine(h) && !BlankLine(h)
    ensures AfterHeaders(HeaderText(headers, eol) + eol + rest) == Some(rest)
  {
    hide AfterHeaders, BlankLine;
    var t := HeaderText(headers, eol) + eol + rest;
    if headers == [] {
      assert t == eol + rest;
      BlankEndsHeaders(eol, rest);
    } else {
      var tail := HeaderText(headers[1..], eol) + eol + rest;
      assert t == headers[0] + eol + tail;
      HeaderSkipped(headers[0], eol, tail);
      HeadersUndone(headers[1..], eol, rest);
    }
  }

  /** A pattern's first character occurs nowhere before the place where the pattern is. */
  lemma FindFirst(a: string, pattern: string, rest: string)
    requires pattern != "" && pattern[0] !in a
    ensures Find(a + (pattern + rest), pattern, 0) == Some(|a|)
  {
    hide Find;
    var s := a + (pattern + rest);
    assert MatchAt(s, pattern, |a|);
    assert forall k :: 0 <= k < |a| ==> s[k] == a[k] && a[k] in a;
    forall i: nat | MatchAt(s, pattern, i) ensures i >= |a| {
      assert s[i] == s[i..i + |pattern|][0];
    }
  }

  lemma FindBegin(before: string, pattern: string, rest: string)
    requires forall i: nat :: i < |before| ==> !MatchAt(before + pattern, pattern, i)
    ensures Find(before + (pattern + rest), pattern, 0) == Some(|before|)
  {
    hide Find;
    var s, start := before + (pattern + rest), before + pattern;
    assert s == start + rest;
    assert MatchAt(s, pattern, |before|);
    forall i: nat | i < |before| ensures !MatchAt(s, pattern, i) {
      assert s[i..i + |pattern|] == start[i..i + |pattern|];
      assert !MatchAt(start, pattern, i);
    }
  }

  lemma NoSecondBegin(a: string, mark: string, pattern: string, after: string)
    requires pattern != "" && forall i: nat :: i < |after| ==> !MatchAt(after, pattern, i)
    ensures Find(a + (mark + after), pattern, |a| + |mark|) == None
  {
    hide Find;
    var s := a + (mark + after);
    forall i: nat | |a| + |mark| <= i ensures !MatchAt(s, pattern, i) {
      var j := i - |a| - |mark|;
      if j + |pattern| <= |after| {
        assert s[i..i + |pattern|] == after[j..j + |pattern|];
        assert !MatchAt(after, pattern, j);
      }
    }
  }

  lemma {:induction false} BodyChars(b64: string, width: nat, eol: string)
    requires width > 0 && Padded(b64) && (eol == "\n" || eol == "\r\n")
    ensures '-' !in BodyText(b64, width, eol)
  {
    if |b64| > width {
      TailPadded(b64, width);
      BodyChars(b64[width..], width, eol);
    }
  }

  lemma TailPadded(b64: string, width: nat)
    requires 0 < width < |b64| && Padded(b64)
    ensures Padded(b64[width..])
  {
  }

  /** Whatever surrounds it, the body text comes back. */
  lemma UnframeArmor(b64: string, l: Layout)
    requires WellFormed(l) && Padded(b64)
    ensures Unframe(Armor(b64, l)) == Some(BodyText(b64, l.width, Eol(l)) + ChecksumText(l))
  {
    hide Find, SkipWhile, AfterHeaders, BodyText, HeaderText;
    var body := BodyText(b64, l.width, Eol(l)) + ChecksumText(l);
    var framed := body + (END + l.after);
    var t := HeaderText(l.headers, Eol(l)) + Eol(l) + framed;
    FindBegin(l.before, BEGIN, Eol(l) + t);
    var s := Armor(b64, l);
    assert s == l.before + (BEGIN + (Eol(l) + t));
    assert s[|l.before|..] == BEGIN + Eol(l) + t;
    MarkersAreOneLine();
    SkipToEol(BEGIN, Eol(l), t);
    assert AfterLine(s[|l.before|..]) == Some(t);
    HeadersUndone(l.headers, Eol(l), framed);
    BodyChars(b64, l.width, Eol(l));
    FindFirst(body, END, l.after);
    NoSecondBegin(body, END, BEGIN, l.after);
    assert framed[..|body|] == body;
  }

  lemma MarkersAreOneLine()
    ensures OneLine(BEGIN) && END[0] == '-'
  {
  }

  // --- The lines are collected ---

  lemma LinesOfFirst(a: string, eol: string, rest: string)
    requires OneLine(a) && (eol == "\n" || eol == "\r\n")
    ensures Lines(a + eol + rest) == [if eol == "\n" then a else a + "\r"] + Lines(rest)
  {
    hide SkipWhile;
    SkipToEol(a, eol, rest);
  }

  lemma LineDataOf(a: string, eol: string)
    requires a != "" && a[|a| - 1] != '\r'
    ensures LineData(if eol == "\n" then a else a + "\r") == if a[0] == '=' then "" else a
  {
    assert StripCr(a + "\r") == a;
  }

  lemma FirstLine(b64: string, cut: nat)
    requires 0 < cut <= |b64| && Padded(b64)
    ensures OneLine(b64[..cut]) && b64[..cut][cut - 1] != '\r'
    ensures Padded(b64[cut..])
  {
  }

  predicate Collected(b64: string, width: nat, got: string)
    requires width > 0
  {
    if PadLine(b64, width) then got <= b64 && |b64| - 2 <= |got| < |b64| else got == b64
  }

  /** What the decoder collects: all of the base64, or, when a line begins with padding, all but its last one or two
      characters. */
  lemma {:induction false} CollectBody(b64: string, l: Layout)
    requires l.width > 0 && Padded(b64) && (l.checksum.Some? ==> OneLine(l.checksum.value))
    ensures var got := Collect(Lines(BodyText(b64, l.width, Eol(l)) + ChecksumText(l)));
      Collected(b64, l.width, got)
  {
    hide SkipWhile, Lines, Collect, LineData, Padded, OneLine, Collected;
    var eol, check := Eol(l), ChecksumText(l);
    if b64 == "" {
      CollectedNothing(l.width);
      CollectChecksum(l);
      assert BodyText(b64, l.width, eol) + check == check;
    } else {
      var cut := if |b64| <= l.width then |b64| else l.width;
      var first, rest := b64[..cut], b64[cut..];
      var tail := BodyText(rest, l.width, eol) + check;
      assert BodyText(b64, l.width, eol) + check == first + eol + tail;
      FirstLine(b64, cut);
      LinesOfFirst(first, eol, tail);
      CollectCons(if eol == "\n" then first else first + "\r", Lines(tail));
      LineDataOf(first, eol);
      CollectBody(rest, l);
      CollectedStep(b64, l.width, cut, Collect(Lines(tail)));
    }
  }

  lemma CollectedNothing(width: nat)
    requires width > 0
    ensures Collected("", width, "")
  {
  }

  lemma CollectedStep(b64: string, width: nat, cut: nat, got: string)
    requires 0 < width && 0 < cut <= |b64| && Padded(b64) && cut == (if |b64| <= width then |b64| else width)
    requires Collected(b64[cut..], width, got)
    ensures Collected(b64, width, (if b64[0] == '=' then "" else b64[..cut]) + got)
  {
    hide Padded;
    assert b64 == b64[..cut] + b64[cut..];
    if b64[0] == '=' {
      PadTail(b64, width);
    }
  }

  /** Once a line begins with padding only padding is left. */
  lemma PadTail(b64: string, width: nat)
    requires width > 0 && Padded(b64) && b64 != "" && b64[0] == '='
    ensures |b64| <= 2 && (|b64| > width ==> PadLine(b64[width..], width))
  {
  }

  lemma CollectChecksum(l: Layout)
    requires l.checksum.Some? ==> OneLine(l.checksum.value)
    ensures Collect(Lines(ChecksumText(l))) == ""
  {
    hide SkipWhile;
    if l.checksum.Some? {
      var a := "=" + l.checksum.value;
      assert OneLine(a);
      LinesOfFirst(a, Eol(l), "");
      assert ChecksumText(l) == a + Eol(l) + "";
      assert Lines("") == [];
      CollectCons(if Eol(l) == "\n" then a else a + "\r", []);
    }
  }

  /** MAIN RESULT. For every non-empty payload within the size limit and every layout, decoding the armored text gives
      back exactly the payload, if and only if no body line begins with padding. */
  lemma DearmorUndoesArmorIff(payload: seq<byte>, l: Layout)
    requires payload != [] && |Base64(payload)| <= INT_MAX && WellFormed(l)
    ensures Dearmor(Armor(Base64(payload), l)) == Some(payload) <==> !PadLine(Base64(payload), l.width)
    ensures PadLine(Base64(payload), l.width) ==> Dearmor(Armor(Base64(payload), l)) == None
  {
    hide Unframe, Armor, BodyText, Collect, Lines, DecodeTrimmed, Base64;
    var b64 := Base64(payload);
    Base64Shape(payload);
    UnframeArmor(b64, l);
    CollectBody(b64, l);
    Base64RoundTrip(payload);
  }

  /** Lines that hold whole groups never begin with padding. */
  lemma {:induction false} WholeGroupsHaveNoPadLine(b64: string, width: nat)
    requires width > 0 && width % 4 == 0 && |b64| % 4 == 0 && Padded(b64)
    ensures !PadLine(b64, width)
  {
    if |b64| > width {
      TailPadded(b64, width);
      WholeGroupsHaveNoPadLine(b64[width..], width);
    }
  }

  /** So armor with lines of whole groups is always undone. */
  lemma DearmorUndoesArmor(payload: seq<byte>, l: Layout)
    requires payload != [] && |Base64(payload)| <= INT_MAX && WellFormed(l) && l.width % 4 == 0
    ensures Dearmor(Armor(Base64(payload), l)) == Some(payload)
  {
    hide Dearmor, Armor, PadLine, Base64;
    Base64Shape(payload);
    WholeGroupsHaveNoPadLine(Base64(payload), l.width);
    DearmorUndoesArmorIff(payload, l);
  }

  /** A layout whose lines split a group can lose the padding: one octet in lines of three is refused. */
  lemma SplitGroupIsRefused(x: byte, l: Layout)
    requires WellFormed(l) && l.width == 3
    ensures Dearmor(Armor(Base64([x]), l)) == None
  {
    hide Dearmor, Armor;
    var b64 := Base64([x]);
    assert b64[3..] == "=" && PadLine(b64[3..], 3);
    DearmorUndoesArmorIff([x], l);
  }
}
