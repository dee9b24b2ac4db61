/** ASCII armor of a public key block (section 6.2 of RFC 4880): base64 (section 4 of RFC 4648), the line layout, and
    the decoder that undoes them. */
module PgpArmor {
  import opened Text
  import opened PgpPackets

  // --- Base64 ---

  function CharOf(v: nat): (c: char)
    requires v < 64
    ensures c != '=' && c != '-' && c != '\n' && c != '\r'
  {
    if v < 26 then ('A' as int + v) as char
    else if v < 52 then ('a' as int + (v - 26)) as char
    else if v < 62 then ('0' as int + (v - 52)) as char
    else if v == 62 then '+' else '/'
  }

  /** The value of a base64 character; padding counts as zero, anything else is no value. */
  function ValueOf(c: char): (v: Option<nat>)
    ensures v.Some? ==> v.value < 64
  {
    if 'A' <= c <= 'Z' then Some(c as int - 'A' as int)
    else if 'a' <= c <= 'z' then Some(c as int - 'a' as int + 26)
    else if '0' <= c <= '9' then Some(c as int - '0' as int + 52)
    else if c == '+' then Some(62)
    else if c == '/' then Some(63)
    else if c == '=' then Some(0)
    else None
  }

  lemma ValueOfChar(v: nat)
    requires v < 64
    ensures ValueOf(CharOf(v)) == Some(v)
  {
  }

  function Base64(p: seq<byte>): string
  {
    if |p| == 0 then ""
    else if |p| == 1 then [CharOf(p[0] / 4), CharOf(p[0] % 4 * 16), '=', '=']
    else if |p| == 2 then
      [CharOf(p[0] / 4), CharOf((p[0] % 4) as int * 16 + p[1] / 16), CharOf((p[1] % 16) as int * 4), '=']
    else
      [CharOf(p[0] / 4), CharOf((p[0] % 4) as int * 16 + p[1] / 16), CharOf((p[1] % 16) as int * 4 + p[2] / 64),
       CharOf(p[2] % 64)] + Base64(p[3..])
  }

  /** Three octets from four values. */
  function Triple(a: nat, b: nat, c: nat, d: nat): (t: seq<byte>)
    requires a < 64 && b < 64 && c < 64 && d < 64
    ensures |t| == 3
  {
    [a * 4 + b / 16, b % 16 * 16 + c / 4, c % 4 * 64 + d]
  }

  /** The block decoder: whole groups of four, failing on a character without a value. */
  function DecodeBlock(b64: string): (r: Option<seq<byte>>)
    requires |b64| % 4 == 0
    ensures r.Some? ==> |r.value| == |b64| / 4 * 3
  {
    if b64 == "" then Some([])
    else
      var a, b, c, d := ValueOf(b64[0]), ValueOf(b64[1]), ValueOf(b64[2]), ValueOf(b64[3]);
      var rest := DecodeBlock(b64[4..]);
      if a.None? || b.None? || c.None? || d.None? || rest.None? then None
      else Some(Triple(a.value, b.value, c.value, d.value) + rest.value)
  }

  /** How many of the last two characters are padding, counted from the end. */
  function PadCount(b64: string): (n: nat)
    ensures n <= 2 && n <= |b64|
  {
    if |b64| >= 1 && b64[|b64| - 1] == '=' then if |b64| >= 2 && b64[|b64| - 2] == '=' then 2 else 1 else 0
  }

  function DecodeTrimmed(b64: string): Option<seq<byte>>
    requires |b64| % 4 == 0
  {
    var d := DecodeBlock(b64);
    if d.None? then None
    else Some(if |d.value| >= PadCount(b64) then d.value[..|d.value| - PadCount(b64)] else d.value)
  }

  /** The shape of an encoding: whole groups, no line breaks or dashes, padding only as the last one or two. */
  predicate Padded(b64: string)
  {
    && (forall k :: 0 <= k < |b64| ==> b64[k] != '-' && b64[k] != '\n' && b64[k] != '\r')
    && (forall k :: 0 <= k < |b64| && b64[k] == '=' ==> |b64| - 2 <= k && b64[|b64| - 1] == '=')
  }

  predicate Shaped(b64: string, n: nat)
  {
    && |b64| % 4 == 0 && Padded(b64) && (n > 0 ==> b64 != "")
    && (|b64| > 0 ==> b64[0] != '=' && b64[1] != '=')
    && PadCount(b64) == if n % 3 == 0 then 0 else 3 - n % 3
  }

  lemma ShapedCons(head: string, rest: string, n: nat)
    requires |head| == 4
    requires forall k :: 0 <= k < 4 ==> head[k] != '=' && head[k] != '-' && head[k] != '\n' && head[k] != '\r'
    requires Shaped(rest, n)
    ensures Shaped(head + rest, n + 3)
  {
    var s := head + rest;
    assert forall k :: 4 <= k < |s| ==> s[k] == rest[k - 4];
  }

  lemma {:induction false} Base64Shape(p: seq<byte>)
    ensures Shaped(Base64(p), |p|)
  {
    if |p| > 2 {
      hide CharOf, Shaped, ValueOf;
      Base64Shape(p[3..]);
      var s := Base64(p);
      assert s == s[..4] + Base64(p[3..]);
      ShapedCons(s[..4], Base64(p[3..]), |p| - 3);
    }
  }

  lemma TripleOfThree(x: byte, y: byte, z: byte)
    ensures Triple(x / 4, (x % 4) as int * 16 + y / 16, (y % 16) as int * 4 + z / 64, z % 64) == [x, y, z]
  {
  }

  lemma OneGroup(a: nat, b: nat, c: nat, d: nat, s: string)
    requires a < 64 && b < 64 && c < 64 && d < 64 && |s| == 4
    requires ValueOf(s[0]) == Some(a) && ValueOf(s[1]) == Some(b)
    requires ValueOf(s[2]) == Some(c) && ValueOf(s[3]) == Some(d)
    ensures DecodeBlock(s) == Some(Triple(a, b, c, d))
  {
    assert s[4..] == "" && DecodeBlock(s[4..]) == Some([]);
    assert Triple(a, b, c, d) + [] == Triple(a, b, c, d);
  }

  /** Decoding an encoding gives the payload, followed by one zero octet for each padding character. */
  lemma {:induction false} DecodeInvertsEncode(p: seq<byte>)
    ensures |Base64(p)| % 4 == 0
    ensures var d := DecodeBlock(Base64(p)); d.Some? && |p| <= |d.value| && d.value[..|p|] == p
    ensures |DecodeBlock(Base64(p)).value| == |p| + PadCount(Base64(p))
  {
    hide CharOf, ValueOf, Triple, DecodeBlock, Base64;
    Base64Shape(p);
    if |p| < 3 {
      DecodeLast(p);
    } else {
      DecodeInvertsEncode(p[3..]);
      Base64Shape(p[3..]);
      DecodeFirst(p);
      assert p == [p[0], p[1], p[2]] + p[3..];
    }
  }

  lemma DecodeLast(p: seq<byte>)
    requires |p| < 3
    ensures |Base64(p)| % 4 == 0
    ensures var d := DecodeBlock(Base64(p)); d.Some? && |p| <= |d.value| && d.value[..|p|] == p
    ensures |DecodeBlock(Base64(p)).value| == |p| + PadCount(Base64(p))
  {
    hide CharOf, ValueOf, Triple, DecodeBlock;
    DecodeNothing();
    PadValue();
    if |p| == 1 {
      var v, w: nat := p[0] / 4, p[0] % 4 * 16;
      ValueOfChar(v);
      ValueOfChar(w);
      OneGroup(v, w, 0, 0, Base64(p));
      TripleOfThree(p[0], 0, 0);
    } else if |p| == 2 {
      var v, w, x: nat := p[0] / 4, (p[0] % 4) as int * 16 + p[1] / 16, (p[1] % 16) as int * 4;
      ValueOfChar(v);
      ValueOfChar(w);
      ValueOfChar(x);
      OneGroup(v, w, x, 0, Base64(p));
      TripleOfThree(p[0], p[1], 0);
    }
  }

  lemma DecodeFirst(p: seq<byte>)
    requires |p| >= 3 && |Base64(p)| % 4 == 0 && |Base64(p[3..])| % 4 == 0
    requires DecodeBlock(Base64(p[3..])).Some?
    ensures DecodeBlock(Base64(p)) == Some([p[0], p[1], p[2]] + DecodeBlock(Base64(p[3..])).value)
  {
    hide CharOf, ValueOf, Triple, DecodeBlock;
    var v, w: nat := p[0] / 4, (p[0] % 4) as int * 16 + p[1] / 16;
    var x, y: nat := (p[1] % 16) as int * 4 + p[2] / 64, p[2] % 64;
    ValueOfChar(v);
    ValueOfChar(w);
    ValueOfChar(x);
    ValueOfChar(y);
    assert Base64(p)[4..] == Base64(p[3..]);
    DecodeCons(v, w, x, y, Base64(p));
    TripleOfThree(p[0], p[1], p[2]);
  }

  lemma DecodeNothing()
    ensures DecodeBlock("") == Some([])
  {
  }

  lemma PadValue()
    ensures ValueOf('=') == Some(0)
  {
  }

  lemma DecodeCons(a: nat, b: nat, c: nat, d: nat, s: string)
    requires a < 64 && b < 64 && c < 64 && d < 64 && |s| >= 4 && |s| % 4 == 0
    requires ValueOf(s[0]) == Some(a) && ValueOf(s[1]) == Some(b)
    requires ValueOf(s[2]) == Some(c) && ValueOf(s[3]) == Some(d)
    requires DecodeBlock(s[4..]).Some?
    ensures DecodeBlock(s) == Some(Triple(a, b, c, d) + DecodeBlock(s[4..]).value)
  {
  }

  /** The padding trim leaves exactly the payload. */
  lemma Base64RoundTrip(p: seq<byte>)
    ensures |Base64(p)| % 4 == 0 && DecodeTrimmed(Base64(p)) == Some(p)
  {
    hide DecodeBlock, Base64;
    DecodeInvertsEncode(p);
  }
}
