/** The check that a binary key file is exactly one V4 transferable public key, up to the digest. */
module PgpKey {
  import opened Text
  import opened PgpPackets

  /** A public-key packet whose V4 fingerprint is defined. */
  predicate PrimaryV4(p: Packet)
  {
    p.tag == 6 && 1 <= |p.body| <= 0xFFFF && p.body[0] == 4
  }

  /** One primary key packet first, and no other public-key packet. */
  predicate TransferableKey(ps: seq<Packet>)
  {
    && AllValid(ps) && ps != [] && PrimaryV4(ps[0])
    && forall i :: 1 <= i < |ps| ==> ps[i].tag != 6
  }

  /** `binary` is, with no byte left over, a concatenation of packets forming one V4 transferable key. */
  predicate Parses(binary: seq<byte>, ps: seq<Packet>)
  {
    TransferableKey(ps) && EncodeAll(ps) == binary
  }

  /** What the V4 fingerprint is the digest of (section 12.2 of RFC 4880). */
  function DigestInput(body: seq<byte>): seq<byte>
    requires |body| <= 0xFFFF
  {
    [0x99] + Be2(|body|) + body
  }

  /** In any parse that begins with `ps`, the packet after them is the one found at `pos`. */
  lemma NextPacket(binary: seq<byte>, pos: nat, ps: seq<Packet>, qs: seq<Packet>)
    requires pos < |binary| && AllValid(ps) && EncodeAll(ps) == binary[..pos]
    requires AllValid(qs) && EncodeAll(qs) == binary
    ensures |ps| < |qs| && qs[..|ps|] == ps
    ensures PacketAt(binary, pos, qs[|ps|], pos + |Encode(qs[|ps|])|)
  {
    hide Encode, Valid;
    var rest := binary[pos..];
    assert binary == binary[..pos] + rest;
    UniqueParse(ps, qs, rest);
    var tail := qs[|ps|..];
    assert tail != [] && tail[0] == qs[|ps|] && tail[0] in tail;
    assert rest == Encode(tail[0]) + EncodeAll(tail[1..]);
    assert binary[pos..pos + |Encode(tail[0])|] == rest[..|Encode(tail[0])|] == Encode(tail[0]);
  }

  /** A packet that may not stand where it is found rules out every parse. */
  lemma NoParse(binary: seq<byte>, pos: nat, ps: seq<Packet>)
    requires pos < |binary| && AllValid(ps) && EncodeAll(ps) == binary[..pos]
    requires forall p, end: nat :: PacketAt(binary, pos, p, end) ==> if ps == [] then !PrimaryV4(p) else p.tag == 6
    ensures forall qs :: !Parses(binary, qs)
  {
    forall qs | AllValid(qs) && EncodeAll(qs) == binary ensures !TransferableKey(qs) {
      NextPacket(binary, pos, ps, qs);
    }
  }

  /** Two packets found at the same place are the same. */
  lemma SamePacket(data: seq<byte>, start: nat, p: Packet, end: nat, q: Packet, end': nat)
    requires PacketAt(data, start, p, end) && PacketAt(data, start, q, end')
    ensures p == q && end == end'
  {
    hide Encode, Valid;
    assert data[start..] == Encode(p) + data[end..];
    assert data[start..] == Encode(q) + data[end'..];
    PrefixFree(p, q, data[end..], data[end'..]);
  }

  /** The packet a header announces, with the place of its body. */
  lemma Announced(data: seq<byte>, start: nat, i: Info) returns (p: Packet)
    requires start + 2 <= i.bodyOffset && Announces(data, start, i)
    ensures PacketAt(data, start, p, i.bodyOffset + i.bodyLen) && p.tag == i.tag && |p.body| == i.bodyLen
    ensures p.body == data[i.bodyOffset..i.bodyOffset + i.bodyLen]
  {
    p :| PacketAt(data, start, p, i.bodyOffset + i.bodyLen) && p.tag == i.tag && |p.body| == i.bodyLen;
    var end := i.bodyOffset + i.bodyLen;
    assert p.body == Encode(p)[|Header(p)|..];
    assert data[start..end][|Encode(p)| - i.bodyLen..] == data[i.bodyOffset..end];
  }

  /** Succeeds exactly on one V4 transferable key, with the bytes its fingerprint is computed from. */
  method ExtractMasterKeyV4(binary: seq<byte>) returns (r: Option<seq<byte>>)
    ensures r.Some? <==> exists ps :: Parses(binary, ps)
    ensures forall ps: seq<Packet> :: Parses(binary, ps) && r.Some? ==> r.value == DigestInput(ps[0].body)
  {
    hide Encode, Valid, Header, DigestInput, Announces, PacketAt;
    r := None;
    if binary == [] {
      NothingParsesEmpty();
      return;
    }
    var first := ReadPacketHeader(binary, 0);
    ghost var none: seq<Packet> := [];
    if first.None? {
      NoParse(binary, 0, none);
      return;
    }
    var firstBodyOffset, firstBodyLen := first.value.bodyOffset, first.value.bodyLen;
    ghost var p := Announced(binary, 0, first.value);
    ghost var ps := [p];
    var pos := firstBodyOffset + firstBodyLen;
    forall q, end: nat | PacketAt(binary, 0, q, end) ensures q == p {
      SamePacket(binary, 0, q, end, p, pos);
    }
    if first.value.tag != 6 {
      NoParse(binary, 0, none);
      return;
    }
    if firstBodyLen == 0 || binary[firstBodyOffset] != 4 {
      NoParse(binary, 0, none);
      return;
    }
    if firstBodyLen > 0xFFFF {
      NoParse(binary, 0, none);
      return;
    }
    StartKey(binary, p, pos);
    while pos < |binary|
      invariant pos <= |binary|
      invariant TransferableKey(ps) && ps[0] == p && EncodeAll(ps) == binary[..pos]
      decreases |binary| - pos
    {
      var next := ReadPacketHeader(binary, pos);
      if next.None? {
        NoParse(binary, pos, ps);
        return;
      }
      ghost var q := Announced(binary, pos, next.value);
      if next.value.tag == 6 {
        forall x, end: nat | PacketAt(binary, pos, x, end) ensures x == q {
          SamePacket(binary, pos, x, end, q, next.value.bodyOffset + next.value.bodyLen);
        }
        NoParse(binary, pos, ps);
        return;
      }
      ghost var was := pos;
      pos := next.value.bodyOffset + next.value.bodyLen;
      ExtendKey(binary, was, ps, q, pos);
      ps := ps + [q];
    }
    assert binary[..pos] == binary;
    assert Parses(binary, ps);
    OnlyParse(binary, ps);
    var prefix: seq<byte> := [0x99] + [firstBodyLen / 0x100, firstBodyLen % 0x100];
    r := Some(prefix + binary[firstBodyOffset..firstBodyOffset + firstBodyLen]);
    assert r.value == DigestInput(p.body) by { DigestBytes(p.body); }
  }

  lemma DigestBytes(body: seq<byte>)
    requires |body| <= 0xFFFF
    ensures DigestInput(body) == [0x99] + [|body| / 0x100, |body| % 0x100] + body
  {
  }

  lemma NothingParsesEmpty()
    ensures forall ps :: !Parses([], ps)
  {
  }

  lemma StartKey(binary: seq<byte>, p: Packet, pos: nat)
    requires PacketAt(binary, 0, p, pos) && PrimaryV4(p)
    ensures TransferableKey([p]) && EncodeAll([p]) == binary[..pos]
  {
    hide Encode, Valid;
    var ps := [p];
    assert |ps[1..]| == 0 && binary[..pos] == binary[0..pos];
  }

  lemma ExtendKey(binary: seq<byte>, was: nat, ps: seq<Packet>, q: Packet, pos: nat)
    requires was <= |binary| && TransferableKey(ps) && EncodeAll(ps) == binary[..was]
    requires PacketAt(binary, was, q, pos) && q.tag != 6
    ensures TransferableKey(ps + [q]) && EncodeAll(ps + [q]) == binary[..pos]
  {
    hide Encode, Valid;
    EncodeAppend(ps, q);
    assert binary[..pos] == binary[..was] + binary[was..pos];
  }

  lemma OnlyParse(binary: seq<byte>, ps: seq<Packet>)
    requires Parses(binary, ps)
    ensures forall qs :: Parses(binary, qs) ==> qs == ps
  {
    forall qs | Parses(binary, qs) ensures qs == ps {
      assert EncodeAll(ps) + [] == EncodeAll(qs);
      UniqueParse(ps, qs, []);
    }
  }
}
