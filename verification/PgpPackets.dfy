/** The OpenPGP packet reader: packet headers (section 4.2 of RFC 4880) and the walk that accepts exactly one V4
    transferable public key. */
module PgpPackets {
  import opened Text

  type byte = x: int | 0 <= x < 256

  /** The definite-length header forms: old format with 1, 2 or 4 length octets, new format with 1, 2 or 5. */
  datatype Form = Old1 | Old2 | Old4 | New1 | New2 | New5

  datatype Packet = Packet(form: Form, tag: nat, body: seq<byte>)

  predicate Valid(p: Packet)
  {
    var n := |p.body|;
    match p.form
    case Old1 => p.tag < 16 && n < 0x100
    case Old2 => p.tag < 16 && n < 0x1_0000
    case Old4 => p.tag < 16 && n < 0x1_0000_0000
    case New1 => p.tag < 64 && n < 192
    case New2 => p.tag < 64 && 192 <= n < 8384
    case New5 => p.tag < 64 && n < 0x1_0000_0000
  }

  function Be2(n: nat): (b: seq<byte>)
    requires n < 0x1_0000
    ensures |b| == 2
  {
    [n / 0x100, n % 0x100]
  }

  function Be4(n: nat): (b: seq<byte>)
    requires n < 0x1_0000_0000
    ensures |b| == 4
  {
    [n / 0x100_0000, n / 0x1_0000 % 0x100, n / 0x100 % 0x100, n % 0x100]
  }

  /** One octet, as a number. */
  function Octet(data: seq<byte>, i: nat): (n: int)
    requires i < |data|
    ensures 0 <= n < 0x100
  {
    data[i]
  }

  /** The number written big-endian in two or four octets. */
  function Read2(data: seq<byte>, i: nat): (n: int)
    requires i + 2 <= |data|
    ensures 0 <= n < 0x1_0000
  {
    Octet(data, i) * 0x100 + Octet(data, i + 1)
  }

  function Read4(data: seq<byte>, i: nat): (n: int)
    requires i + 4 <= |data|
    ensures 0 <= n < 0x1_0000_0000
  {
    Octet(data, i) * 0x100_0000 + Octet(data, i + 1) * 0x1_0000 + Octet(data, i + 2) * 0x100 + Octet(data, i + 3)
  }

  lemma Read2Inverts(data: seq<byte>, i: nat, n: nat)
    requires i + 2 <= |data| && n < 0x1_0000
    ensures data[i..i + 2] == Be2(n) <==> Read2(data, i) == n
  {
    assert data[i..i + 2] == [data[i], data[i + 1]];
  }

  lemma Read4Inverts(data: seq<byte>, i: nat, n: nat)
    requires i + 4 <= |data| && n < 0x1_0000_0000
    ensures data[i..i + 4] == Be4(n) <==> Read4(data, i) == n
  {
    hide Be4;
    var got := data[i..i + 4];
    var a, b, c, d := Octet(data, i), Octet(data, i + 1), Octet(data, i + 2), Octet(data, i + 3);
    assert got[0] == a && got[1] == b && got[2] == c && got[3] == d;
    Be4Value(n);
    if Read4(data, i) == n {
      Be4Digits(a, b, c, d);
    }
  }

  lemma Be4Value(n: nat)
    requires n < 0x1_0000_0000
    ensures var b := Be4(n); Octet(b, 0) * 0x100_0000 + Octet(b, 1) * 0x1_0000 + Octet(b, 2) * 0x100 + Octet(b, 3) == n
  {
  }

  lemma Be4Digits(a: int, b: int, c: int, d: int)
    requires 0 <= a < 0x100 && 0 <= b < 0x100 && 0 <= c < 0x100 && 0 <= d < 0x100
    ensures Be4(a * 0x100_0000 + b * 0x1_0000 + c * 0x100 + d) == [a, b, c, d]
  {
    Digits4(a, b, c, d);
  }

  lemma Digits4(a: int, b: int, c: int, d: int)
    requires 0 <= a < 0x100 && 0 <= b < 0x100 && 0 <= c < 0x100 && 0 <= d < 0x100
    ensures var n := a * 0x100_0000 + b * 0x1_0000 + c * 0x100 + d;
      n / 0x100_0000 == a && n / 0x1_0000 % 0x100 == b && n / 0x100 % 0x100 == c && n % 0x100 == d
  {
    var n := a * 0x100_0000 + b * 0x1_0000 + c * 0x100 + d;
    assert n / 0x1_0000 == a * 0x100 + b;
    assert n / 0x100 == (a * 0x100 + b) * 0x100 + c;
  }

  function Header(p: Packet): (h: seq<byte>)
    requires Valid(p)
    ensures 2 <= |h| <= 6
  {
    var n := |p.body|;
    match p.form
    case Old1 => [128 + 4 * p.tag, n]
    case Old2 => [128 + 4 * p.tag + 1] + Be2(n)
    case Old4 => [128 + 4 * p.tag + 2] + Be4(n)
    case New1 => [192 + p.tag, n]
    case New2 => [192 + p.tag, (n - 192) / 0x100 + 192, (n - 192) % 0x100]
    case New5 => [192 + p.tag, 255] + Be4(n)
  }

  function Encode(p: Packet): (e: seq<byte>)
    requires Valid(p)
    ensures |e| >= 2
  {
    Header(p) + p.body
  }

  predicate AllValid(ps: seq<Packet>) { forall p :: p in ps ==> Valid(p) }

  function EncodeAll(ps: seq<Packet>): seq<byte>
    requires AllValid(ps)
  {
    if ps == [] then []
    else
      assert ps[0] in ps;
      Encode(ps[0]) + EncodeAll(ps[1..])
  }

  /** `p`, in some definite-length form, occupies data[start..end]. */
  predicate PacketAt(data: seq<byte>, start: nat, p: Packet, end: nat)
  {
    Valid(p) && start <= end <= |data| && data[start..end] == Encode(p)
  }

  // --- Encodings are prefix-free ---

  /** The first octets of an encoding give back its form, tag, header length and body length. */
  lemma HeaderDetermines(p: Packet, q: Packet, s: seq<byte>, t: seq<byte>)
    requires Valid(p) && Valid(q) && Encode(p) + s == Encode(q) + t
    ensures Header(p) == Header(q) && |p.body| == |q.body| && p.form == q.form && p.tag == q.tag
  {
    var x, y := Encode(p) + s, Encode(q) + t;
    assert x[..|Header(p)|] == Header(p) && y[..|Header(q)|] == Header(q);
    FieldInverts(x, 0, p);
    FieldInverts(y, 0, q);
  }

  /** No packet is the beginning of a different one. */
  lemma PrefixFree(p: Packet, q: Packet, s: seq<byte>, t: seq<byte>)
    requires Valid(p) && Valid(q) && Encode(p) + s == Encode(q) + t
    ensures p == q && s == t
  {
    HeaderDetermines(p, q, s, t);
    var h, n := |Header(p)|, |p.body|;
    assert p.body == (Encode(p) + s)[h..h + n] && q.body == (Encode(q) + t)[h..h + n];
    assert s == (Encode(p) + s)[h + n..] && t == (Encode(q) + t)[h + n..];
  }

  /** So a byte string splits into packets in at most one way, and a parsed prefix is never wrong. */
  lemma {:induction false} UniqueParse(ps: seq<Packet>, qs: seq<Packet>, rest: seq<byte>)
    requires AllValid(ps) && AllValid(qs) && EncodeAll(ps) + rest == EncodeAll(qs)
    ensures |ps| <= |qs| && qs[..|ps|] == ps
    ensures AllValid(qs[|ps|..]) && rest == EncodeAll(qs[|ps|..])
  {
    hide Encode, Valid;
    if ps == [] {
      assert EncodeAll(ps) + rest == rest && qs[0..] == qs;
    } else {
      var s := EncodeAll(ps[1..]) + rest;
      assert ps[0] in ps && EncodeAll(ps) + rest == Encode(ps[0]) + s;
      assert qs != [];
      assert qs[0] in qs;
      PrefixFree(ps[0], qs[0], s, EncodeAll(qs[1..]));
      UniqueParse(ps[1..], qs[1..], rest);
      assert qs[|ps|..] == qs[1..][|ps| - 1..];
    }
  }

  lemma {:induction false} EncodeAppend(ps: seq<Packet>, p: Packet)
    requires AllValid(ps) && Valid(p)
    ensures AllValid(ps + [p]) && EncodeAll(ps + [p]) == EncodeAll(ps) + Encode(p)
  {
    hide Encode, Valid;
    if ps == [] {
      assert ps + [p] == [p] && [p][1..] == ps;
    } else {
      assert (ps + [p])[1..] == ps[1..] + [p] && ps[0] in ps;
      EncodeAppend(ps[1..], p);
    }
  }

  // --- Reading one header ---

  datatype Info = Info(tag: nat, bodyOffset: nat, bodyLen: nat)

  /** The packet a header announces, as read from the first octets at `start`. */
  ghost predicate Announces(data: seq<byte>, start: nat, i: Info)
  {
    exists p :: PacketAt(data, start, p, i.bodyOffset + i.bodyLen) && p.tag == i.tag && |p.body| == i.bodyLen
  }

  /** The length field of a definite-length header at `start`: form, tag, header size and body length. */
  datatype Field = Field(form: Form, tag: nat, size: nat, len: nat)

  function ReadField(data: seq<byte>, start: nat): (f: Option<Field>)
    ensures f.Some? ==> 2 <= f.value.size && start + f.value.size <= |data|
  {
    if start + 1 >= |data| then None
    else
      var h, l := Octet(data, start), Octet(data, start + 1);
      if h < 128 then None
      else if h >= 192 then
        if l < 192 then Some(Field(New1, h - 192, 2, l))
        else if l < 224 then
          if start + 2 >= |data| then None
          else Some(Field(New2, h - 192, 3, Read2(data, start + 1) - 192 * 0x100 + 192))
        else if l < 255 || start + 5 >= |data| then None
        else Some(Field(New5, h - 192, 6, Read4(data, start + 2)))
      else
        var tag := (h - 128) / 4;
        if h % 4 == 0 then Some(Field(Old1, tag, 2, l))
        else if h % 4 == 1 then if start + 2 >= |data| then None else Some(Field(Old2, tag, 3, Read2(data, start + 1)))
        else if h % 4 == 3 || start + 4 >= |data| then None
        else Some(Field(Old4, tag, 5, Read4(data, start + 1)))
  }

  /** Reading inverts the header encoding, whatever follows. */
  lemma FieldInverts(data: seq<byte>, start: nat, p: Packet)
    requires Valid(p) && start + |Header(p)| <= |data| && data[start..start + |Header(p)|] == Header(p)
    ensures ReadField(data, start) == Some(Field(p.form, p.tag, |Header(p)|, |p.body|))
  {
    hide Read2, Read4, Be4, Be2;
    var h, n := Header(p), |p.body|;
    assert forall i :: 0 <= i < |h| ==> data[start + i] == h[i];
    match p.form {
      case Old2 =>
        assert data[start + 1..start + 3] == h[1..] == Be2(n);
        Read2Inverts(data, start + 1, n);
      case Old4 =>
        assert data[start + 1..start + 5] == h[1..] == Be4(n);
        Read4Inverts(data, start + 1, n);
      case New2 => TwoOctetForm(data, start, p);
      case New5 =>
        assert data[start + 2..start + 6] == h[2..] == Be4(n);
        Read4Inverts(data, start + 2, n);
      case _ =>
    }
  }

  /** The two-octet form: 192..223 in the first octet covers exactly the lengths 192..8383. */
  lemma TwoOctetForm(data: seq<byte>, start: nat, p: Packet)
    requires Valid(p) && p.form == New2 && start + 3 <= |data| && data[start..start + 3] == Header(p)
    ensures 192 <= Octet(data, start + 1) < 224 && Octet(data, start) == 192 + p.tag
    ensures Read2(data, start + 1) - 192 * 0x100 + 192 == |p.body|
  {
    assert forall i :: 0 <= i < 3 ==> data[start + i] == Header(p)[i];
    assert data[start + 0] == data[start];
  }

  /** Whatever is read is an encoding: the bytes at `start` are the header of any body of the length read. */
  lemma FieldIsHeader(data: seq<byte>, start: nat, body: seq<byte>)
    requires ReadField(data, start).Some? && |body| == ReadField(data, start).value.len
    ensures var f := ReadField(data, start).value;
      var p := Packet(f.form, f.tag, body);
      Valid(p) && |Header(p)| == f.size && data[start..start + f.size] == Header(p)
  {
    hide Read2, Read4, Be4, Be2;
    var f := ReadField(data, start).value;
    var p := Packet(f.form, f.tag, body);
    var got := data[start..start + f.size];
    match f.form {
      case Old2 =>
        Read2Inverts(data, start + 1, f.len);
        assert got == [data[start]] + data[start + 1..start + 3];
      case Old4 =>
        Read4Inverts(data, start + 1, f.len);
        assert got == [data[start]] + data[start + 1..start + 5];
      case New2 => ReadTwoOctet(data, start, p);
      case New5 =>
        Read4Inverts(data, start + 2, f.len);
        assert got == [data[start], data[start + 1]] + data[start + 2..start + 6];
      case _ =>
    }
  }

  lemma ReadTwoOctet(data: seq<byte>, start: nat, p: Packet)
    requires start + 3 <= |data| && 192 <= Octet(data, start + 1) < 224 && 192 <= Octet(data, start)
    requires p.form == New2 && p.tag == Octet(data, start) - 192
    requires |p.body| == Read2(data, start + 1) - 192 * 0x100 + 192
    ensures Valid(p) && Header(p) == [data[start], data[start + 1], data[start + 2]]
  {
  }

  method ReadPacketHeader(data: seq<byte>, packetStart: nat) returns (r: Option<Info>)
    ensures r.Some? ==>
      && packetStart + 2 <= r.value.bodyOffset && r.value.bodyOffset + r.value.bodyLen <= |data|
      && Announces(data, packetStart, r.value)
    ensures r.None? ==> forall p, end: nat :: !PacketAt(data, packetStart, p, end)
  {
    hide Valid, Header;
    r := None;
    ghost var field := ReadField(data, packetStart);
    NoFieldNoPacket(data, packetStart);
    if packetStart >= |data| {
      return;
    }
    var h := Octet(data, packetStart);
    if h < 0x80 {
      return;
    }
    var tag, bodyLen, bodyOffset := 0, 0, 0;
    if h / 0x40 % 2 == 1 {
      tag := h % 0x40;
      if packetStart + 1 >= |data| {
        return;
      }
      var l0 := Octet(data, packetStart + 1);
      if l0 < 192 {
        bodyLen := l0;
        bodyOffset := packetStart + 2;
      } else if l0 < 224 {
        if packetStart + 2 >= |data| {
          return;
        }
        bodyLen := (l0 - 192) * 0x100 + Octet(data, packetStart + 2) + 192;
        bodyOffset := packetStart + 3;
      } else if l0 == 255 {
        if packetStart + 5 >= |data| {
          return;
        }
        bodyLen := Octet(data, packetStart + 2) * 0x100_0000 + Octet(data, packetStart + 3) * 0x1_0000 +
          Octet(data, packetStart + 4) * 0x100 + Octet(data, packetStart + 5);
        bodyOffset := packetStart + 6;
      } else {
        return;
      }
    } else {
      tag := h / 4 % 0x10;
      var lenType := h % 4;
      if lenType == 0 {
        if packetStart + 1 >= |data| {
          return;
        }
        bodyLen := Octet(data, packetStart + 1);
        bodyOffset := packetStart + 2;
      } else if lenType == 1 {
        if packetStart + 2 >= |data| {
          return;
        }
        bodyLen := Octet(data, packetStart + 1) * 0x100 + Octet(data, packetStart + 2);
        bodyOffset := packetStart + 3;
      } else if lenType == 2 {
        if packetStart + 4 >= |data| {
          return;
        }
        bodyLen := Octet(data, packetStart + 1) * 0x100_0000 + Octet(data, packetStart + 2) * 0x1_0000 +
          Octet(data, packetStart + 3) * 0x100 + Octet(data, packetStart + 4);
        bodyOffset := packetStart + 5;
      } else {
        return;
      }
    }
    assert field == Some(Field(field.value.form, tag, bodyOffset - packetStart, bodyLen));
    if bodyOffset + bodyLen > |data| {
      return;
    }
    r := Some(Info(tag, bodyOffset, bodyLen));
    FieldAnnounces(data, packetStart, r.value);
  }

  /** A packet can only start where its length field reads and its body fits. */
  lemma NoFieldNoPacket(data: seq<byte>, start: nat)
    ensures var f := ReadField(data, start);
      f.None? || start + f.value.size + f.value.len > |data| ==> forall p, end: nat :: !PacketAt(data, start, p, end)
  {
    hide ReadField, Valid, Header;
    forall p, end: nat | PacketAt(data, start, p, end)
      ensures var f := ReadField(data, start); f.Some? && start + f.value.size + f.value.len == end
    {
      var h := |Header(p)|;
      assert Encode(p)[..h] == Header(p);
      assert data[start..start + h] == data[start..end][..h];
      FieldInverts(data, start, p);
    }
  }

  lemma FieldAnnounces(data: seq<byte>, start: nat, i: Info)
    requires ReadField(data, start).Some?
    requires var f := ReadField(data, start).value;
      i == Info(f.tag, start + f.size, f.len) && start + f.size + f.len <= |data|
    ensures Announces(data, start, i)
  {
    var f := ReadField(data, start).value;
    var end := i.bodyOffset + i.bodyLen;
    var p := Packet(f.form, f.tag, data[i.bodyOffset..end]);
    FieldIsHeader(data, start, p.body);
    assert data[start..end] == data[start..i.bodyOffset] + p.body;
    assert PacketAt(data, start, p, end);
  }
}
