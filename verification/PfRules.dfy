/** The rules the macOS firewall writes for local traffic and for the tunnel, and first-match evaluation of them. */
module PfRules {
  import opened Text

  // --- Addresses ---

  /** An address: its family and its bits as a number. */
  datatype Addr = Addr(v6: bool, bits: nat)

  /** A prefix, as written in a rule and as the interval it covers. */
  datatype Range = Range(text: string, v6: bool, lo: nat, hi: nat)

  predicate Covers(r: Range, a: Addr) { r.v6 == a.v6 && r.lo <= a.bits <= r.hi }

  const LOOPBACK4: Range := Range("127.0.0.0/8", false, 0x7F00_0000, 0x7FFF_FFFF)
  const NET192: Range := Range("192.168.0.0/16", false, 0xC0A8_0000, 0xC0A8_FFFF)
  const NET172: Range := Range("172.16.0.0/12", false, 0xAC10_0000, 0xAC1F_FFFF)
  const LINK_LOCAL4: Range := Range("169.254.0.0/16", false, 0xA9FE_0000, 0xA9FE_FFFF)
  const RESERVED: Range := Range("10.255.255.0/24", false, 0x0AFF_FF00, 0x0AFF_FFFF)
  const NET10: Range := Range("10.0.0.0/8", false, 0x0A00_0000, 0x0AFF_FFFF)
  const MULTICAST4: Range := Range("224.0.0.0/4", false, 0xE000_0000, 0xEFFF_FFFF)
  const LOOPBACK6: Range := Range("::1", true, 1, 1)
  const LINK_LOCAL6: Range :=
    Range("fe80::/10", true, 0xFE80_0000_0000_0000_0000_0000_0000_0000, 0xFEBF_FFFF_FFFF_FFFF_FFFF_FFFF_FFFF_FFFF)
  const MULTICAST6: Range :=
    Range("ff00::/8", true, 0xFF00_0000_0000_0000_0000_0000_0000_0000, 0xFFFF_FFFF_FFFF_FFFF_FFFF_FFFF_FFFF_FFFF)
  const ULA: Range :=
    Range("fc00::/7", true, 0xFC00_0000_0000_0000_0000_0000_0000_0000, 0xFDFF_FFFF_FFFF_FFFF_FFFF_FFFF_FFFF_FFFF)

  // --- Rules ---

  datatype Action = Pass | Block

  datatype Dir = Out | In

  /** The group of the sending process: root's, the application's own, or any other. */
  datatype Group = Wheel | Windscribe | OtherGroup

  /** A remote range, ICMPv6 message types, everything of one family, or a TCP destination port. */
  datatype Target = Remote(range: Range) | Icmp6(types: seq<nat>) | Anyone(v6: bool) | TcpPort(port: nat)

  /** A quick rule. `noState` is only ever written on a pass. */
  datatype Rule = Rule(
    action: Action, dir: Dir, iface: Option<string>, target: Target, noState: bool, group: Option<Group>,
    anyFlags: bool)

  datatype Packet = Packet(
    dir: Dir, iface: string, remote: Addr, icmp6: Option<nat>, group: Group, tcpPort: Option<nat>)

  predicate TargetHits(t: Target, p: Packet)
  {
    match t
    case Remote(r) => Covers(r, p.remote)
    case Icmp6(types) => p.remote.v6 && p.icmp6.Some? && p.icmp6.value in types
    case Anyone(v6) => p.remote.v6 == v6
    case TcpPort(port) => p.tcpPort == Some(port)
  }

  predicate Hits(r: Rule, p: Packet)
  {
    && r.dir == p.dir && (r.iface.Some? ==> r.iface.value == p.iface) && TargetHits(r.target, p)
    && (r.group.Some? ==> r.group.value == p.group)
  }

  // --- The text of a rule ---

  function FamilyWord(v6: bool): string { if v6 then "inet6" else "inet" }

  function GroupWord(g: Group): string
  {
    match g
    case Wheel => "0"
    case Windscribe => "windscribe"
    case OtherGroup => "other"
  }

  /** The message types, each but the last with a comma behind it. */
  function TypeWords(types: seq<nat>): seq<string>
  {
    if types == [] then []
    else [Decimal(types[0]) + if |types| == 1 then "" else ","] + TypeWords(types[1..])
  }

  function TargetWords(t: Target, dir: Dir): seq<string>
  {
    match t
    case Icmp6(types) => ["inet6", "proto", "icmp6", "icmp6-type", "{"] + TypeWords(types) + ["}"]
    case Remote(range) =>
      [FamilyWord(range.v6)] + if dir.Out? then ["from", "any", "to", range.text] else ["from", range.text, "to", "any"]
    case Anyone(v6) => [FamilyWord(v6), "from", "any", "to", "any"]
    case TcpPort(port) => ["proto", "tcp", "from", "any", "to", "any", "port", "=", Decimal(port)]
  }

  function RuleWords(r: Rule): seq<string>
  {
    [if r.action.Pass? then "pass" else "block", if r.dir.Out? then "out" else "in", "quick"] +
    (if r.iface.Some? then ["on", r.iface.value] else []) +
    TargetWords(r.target, r.dir) +
    (if r.group.Some? then ["group", GroupWord(r.group.value)] else []) +
    (if r.anyFlags then ["flags", "any"] else []) +
    (if r.noState then ["no", "state"] else [])
  }

  function Render(r: Rule): string { Join(RuleWords(r)) }

  function RenderAll(rs: seq<Rule>): (ts: seq<string>)
    ensures |ts| == |rs| && forall k :: 0 <= k < |rs| ==> ts[k] == Render(rs[k])
  {
    seq(|rs|, k requires 0 <= k < |rs| => Render(rs[k]))
  }

  /** With quick rules the first hit decides. */
  function FirstMatch(rs: seq<Rule>, p: Packet): Option<Rule>
  {
    if rs == [] then None else if Hits(rs[0], p) then Some(rs[0]) else FirstMatch(rs[1..], p)
  }

  lemma {:induction false} FirstMatchAppend(a: seq<Rule>, b: seq<Rule>, p: Packet)
    ensures FirstMatch(a + b, p) == if FirstMatch(a, p).Some? then FirstMatch(a, p) else FirstMatch(b, p)
  {
    if a == [] {
      assert a + b == b;
    } else {
      assert (a + b)[1..] == a[1..] + b;
      FirstMatchAppend(a[1..], b, p);
    }
  }

  // --- The intent and the live interface state ---

  datatype Config = Config(
    connectingIp: LocalAddr,
    allowedIps: seq<string>,
    allowLanTraffic: bool,
    isCustomConfig: bool,
    vpnInterfaceName: string,
    staticPorts: seq<nat>)

  /** One IPv4 address, as written and as a number. */
  datatype LocalAddr = LocalAddr(text: string, bits: nat)

  // --- The local-traffic rules ---

  /** A rule for both directions. */
  function Pair(action: Action, iface: Option<string>, target: Target, noState: bool): seq<Rule>
  {
    [Rule(action, Out, iface, target, noState, None, false), Rule(action, In, iface, target, noState, None, false)]
  }

  const NDP_MLD: Target := Icmp6([130, 131, 132, 133, 134, 135, 136, 137, 143])
  const ICMP6_ERRORS: Target := Icmp6([1, 2, 3, 4])

  function PassPair(iface: Option<string>, target: Target): seq<Rule> { Pair(Pass, iface, target, false) }
  function BlockPair(iface: Option<string>, r: Range): seq<Rule> { Pair(Block, iface, Remote(r), false) }
  function LanPair(open: bool, r: Range): seq<Rule> { Pair(if open then Pass else Block, None, Remote(r), open) }

  function AlwaysRules(): seq<Rule>
  {
    PassPair(None, Remote(LOOPBACK4)) + PassPair(None, Remote(LOOPBACK6)) + PassPair(None, Remote(LINK_LOCAL6)) +
    PassPair(None, NDP_MLD)
  }

  function OwnPair(iface: string, addr: LocalAddr): seq<Rule>
  {
    PassPair(Some(iface), Remote(Range(addr.text + "/32", false, addr.bits, addr.bits)))
  }

  /** The adapter's own addresses. */
  function OwnRules(iface: string, own: seq<LocalAddr>): seq<Rule>
  {
    if own == [] then []
    else OwnPair(iface, own[0]) + OwnRules(iface, own[1..])
  }

  /** Private, multicast and unique-local traffic kept out of the tunnel. */
  function CarveOutBlocks(iface: string): seq<Rule>
  {
    BlockPair(Some(iface), NET192) + BlockPair(Some(iface), NET172) + BlockPair(Some(iface), LINK_LOCAL4) +
    BlockPair(Some(iface), NET10) + BlockPair(Some(iface), MULTICAST4) + BlockPair(Some(iface), ULA) +
    BlockPair(Some(iface), MULTICAST6)
  }

  function LanOpen(c: Config): bool { c.allowLanTraffic || c.isCustomConfig }

  function UnscopedRules(open: bool): seq<Rule>
  {
    LanPair(open, NET192) + LanPair(open, NET172) + LanPair(open, LINK_LOCAL4) + BlockPair(None, RESERVED) +
    LanPair(open, NET10) + LanPair(open, MULTICAST4) + LanPair(open, MULTICAST6) + LanPair(open, ULA)
  }

  function ErrorRules(c: Config, hasV6: bool): seq<Rule>
  {
    if c.vpnInterfaceName != "" && !c.isCustomConfig && hasV6
    then PassPair(Some(c.vpnInterfaceName), ICMP6_ERRORS) else []
  }

  function ReservedRules(c: Config): seq<Rule>
  {
    if c.vpnInterfaceName != "" then PassPair(Some(c.vpnInterfaceName), Remote(RESERVED)) else []
  }

  predicate CarvesOut(c: Config) { c.vpnInterfaceName != "" && !c.isCustomConfig && c.allowLanTraffic }

  function CarveOutRules(c: Config, own: seq<LocalAddr>): seq<Rule>
  {
    if CarvesOut(c) then OwnRules(c.vpnInterfaceName, own) + CarveOutBlocks(c.vpnInterfaceName) else []
  }

  function LanRules(c: Config, own: seq<LocalAddr>, hasV6: bool): seq<Rule>
  {
    AlwaysRules() + ErrorRules(c, hasV6) + ReservedRules(c) + CarveOutRules(c, own) + UnscopedRules(LanOpen(c))
  }

  method OwnAddressRules(iface: string, own: seq<LocalAddr>) returns (rules: seq<Rule>)
    ensures rules == OwnRules(iface, own)
  {
    hide OwnPair;
    rules := [];
    var i := 0;
    while i < |own|
      invariant 0 <= i <= |own|
      invariant OwnRules(iface, own) == rules + OwnRules(iface, own[i..])
    {
      assert own[i..][1..] == own[i + 1..];
      rules := rules + OwnPair(iface, own[i]);
      i := i + 1;
    }
  }

  method LanTrafficRules(c: Config, own: seq<LocalAddr>, hasV6: bool) returns (rules: seq<Rule>)
    ensures rules == LanRules(c, own, hasV6)
  {
    hide AlwaysRules, CarveOutBlocks, UnscopedRules, OwnRules, Pair;
    rules := AlwaysRules();
    var iface := c.vpnInterfaceName;
    if iface != "" && !c.isCustomConfig && hasV6 {
      rules := rules + PassPair(Some(iface), ICMP6_ERRORS);
    }
    assert rules == AlwaysRules() + ErrorRules(c, hasV6);
    if iface != "" {
      rules := rules + PassPair(Some(iface), Remote(RESERVED));
    }
    assert rules == AlwaysRules() + ErrorRules(c, hasV6) + ReservedRules(c);
    if iface != "" && !c.isCustomConfig && c.allowLanTraffic {
      var ownRules := OwnAddressRules(iface, own);
      rules := rules + (ownRules + CarveOutBlocks(iface));
    }
    assert rules == AlwaysRules() + ErrorRules(c, hasV6) + ReservedRules(c) + CarveOutRules(c, own);
    rules := rules + UnscopedRules(c.allowLanTraffic || c.isCustomConfig);
  }

  // --- What the local-traffic rules decide ---

  predicate Private4(a: Addr)
  {
    Covers(NET192, a) || Covers(NET172, a) || Covers(LINK_LOCAL4, a) || Covers(NET10, a) || Covers(MULTICAST4, a)
  }

  predicate LocalV6(a: Addr) { Covers(ULA, a) || Covers(MULTICAST6, a) }

  predicate AlwaysOpen(a: Addr) { Covers(LOOPBACK4, a) || Covers(LOOPBACK6, a) || Covers(LINK_LOCAL6, a) }

  /** Neighbour, router and multicast-listener discovery. */
  predicate Discovery(p: Packet)
  {
    p.remote.v6 && p.icmp6.Some? && (130 <= p.icmp6.value <= 137 || p.icmp6.value == 143)
  }

  /** Destination unreachable, packet too big, time exceeded, parameter problem. */
  predicate Icmp6Error(p: Packet) { p.remote.v6 && p.icmp6.Some? && 1 <= p.icmp6.value <= 4 }

  datatype Decision = Decision(action: Action, keepsState: bool)

  predicate OnVpn(c: Config, p: Packet) { c.vpnInterfaceName != "" && p.iface == c.vpnInterfaceName }

  predicate IsOwn(own: seq<LocalAddr>, a: Addr) { !a.v6 && exists l :: l in own && l.bits == a.bits }

  /** What happens to a packet, by what its remote address is; no rule order is involved. */
  function LanDecision(c: Config, own: seq<LocalAddr>, hasV6: bool, p: Packet): Option<Decision>
  {
    var onVpn := OnVpn(c, p);
    var lanAllowed := c.allowLanTraffic || c.isCustomConfig;
    var carved := onVpn && c.allowLanTraffic && !c.isCustomConfig;
    if AlwaysOpen(p.remote) || Discovery(p) then Some(Decision(Pass, true))
    else if onVpn && !c.isCustomConfig && hasV6 && Icmp6Error(p) then Some(Decision(Pass, true))
    else if Covers(RESERVED, p.remote) then Some(if onVpn then Decision(Pass, true) else Decision(Block, false))
    else if carved && IsOwn(own, p.remote) then Some(Decision(Pass, true))
    else if !Private4(p.remote) && !LocalV6(p.remote) then None
    else if carved || !lanAllowed then Some(Decision(Block, false))
    else Some(Decision(Pass, false))
  }

  function Outcome(r: Option<Rule>): Option<Decision>
  {
    if r.None? then None else Some(Decision(r.value.action, r.value.action.Pass? && !r.value.noState))
  }

  /** A two-direction rule hits whatever the direction. */
  predicate PairHits(iface: Option<string>, target: Target, p: Packet)
  {
    (iface.Some? ==> iface.value == p.iface) && TargetHits(target, p)
  }

  function Decide(rs: seq<Rule>, p: Packet): Option<Decision> { Outcome(FirstMatch(rs, p)) }

  lemma DecidePair(action: Action, iface: Option<string>, target: Target, noState: bool, p: Packet)
    ensures Decide(Pair(action, iface, target, noState), p) ==
      if PairHits(iface, target, p) then Some(Decision(action, action.Pass? && !noState)) else None
  {
    var rs := Pair(action, iface, target, noState);
    var second := [rs[1]];
    assert rs[1..] == second && |second[1..]| == 0;
    assert FirstMatch(second, p) == if Hits(rs[1], p) then Some(rs[1]) else None;
  }

  lemma DecideAppend(a: seq<Rule>, b: seq<Rule>, p: Packet)
    ensures Decide(a + b, p) == if Decide(a, p).Some? then Decide(a, p) else Decide(b, p)
  {
    FirstMatchAppend(a, b, p);
  }

  lemma AlwaysDecides(p: Packet)
    ensures Decide(AlwaysRules(), p) ==
      if AlwaysOpen(p.remote) || Discovery(p) then Some(Decision(Pass, true)) else None
  {
    Icmp6Hits(p);
    hide Decide;
    var a, b := PassPair(None, Remote(LOOPBACK4)), PassPair(None, Remote(LOOPBACK6));
    var c, d := PassPair(None, Remote(LINK_LOCAL6)), PassPair(None, NDP_MLD);
    DecideAppend(a + b + c, d, p);
    DecideAppend(a + b, c, p);
    DecideAppend(a, b, p);
    DecidePair(Pass, None, Remote(LOOPBACK4), false, p);
    DecidePair(Pass, None, Remote(LOOPBACK6), false, p);
    DecidePair(Pass, None, Remote(LINK_LOCAL6), false, p);
    DecidePair(Pass, None, NDP_MLD, false, p);
  }

  lemma {:induction false} OwnDecides(iface: string, own: seq<LocalAddr>, p: Packet)
    ensures Decide(OwnRules(iface, own), p) ==
      if p.iface == iface && IsOwn(own, p.remote) then Some(Decision(Pass, true)) else None
  {
    if own != [] {
      hide Decide;
      var r := Range(own[0].text + "/32", false, own[0].bits, own[0].bits);
      DecideAppend(OwnPair(iface, own[0]), OwnRules(iface, own[1..]), p);
      DecidePair(Pass, Some(iface), Remote(r), false, p);
      OwnDecides(iface, own[1..], p);
      assert own == [own[0]] + own[1..];
      assert IsOwn(own, p.remote) <==> (!p.remote.v6 && own[0].bits == p.remote.bits) || IsOwn(own[1..], p.remote);
    }
  }

  lemma CarveOutDecides(iface: string, p: Packet)
    ensures Decide(CarveOutBlocks(iface), p) ==
      if p.iface == iface && (Private4(p.remote) || LocalV6(p.remote)) then Some(Decision(Block, false)) else None
  {
    hide Decide;
    var i := Some(iface);
    var a, b, c, d := BlockPair(i, NET192), BlockPair(i, NET172), BlockPair(i, LINK_LOCAL4), BlockPair(i, NET10);
    var e, f, g := BlockPair(i, MULTICAST4), BlockPair(i, ULA), BlockPair(i, MULTICAST6);
    DecideAppend(a + b + c + d + e + f, g, p);
    DecideAppend(a + b + c + d + e, f, p);
    DecideAppend(a + b + c + d, e, p);
    DecideAppend(a + b + c, d, p);
    DecideAppend(a + b, c, p);
    DecideAppend(a, b, p);
    DecidePair(Block, i, Remote(NET192), false, p);
    DecidePair(Block, i, Remote(NET172), false, p);
    DecidePair(Block, i, Remote(LINK_LOCAL4), false, p);
    DecidePair(Block, i, Remote(NET10), false, p);
    DecidePair(Block, i, Remote(MULTICAST4), false, p);
    DecidePair(Block, i, Remote(ULA), false, p);
    DecidePair(Block, i, Remote(MULTICAST6), false, p);
  }

  lemma UnscopedDecides(open: bool, p: Packet)
    ensures Decide(UnscopedRules(open), p) ==
      if Covers(RESERVED, p.remote) then Some(Decision(Block, false))
      else if Private4(p.remote) || LocalV6(p.remote) then
        Some(if open then Decision(Pass, false) else Decision(Block, false))
      else None
  {
    hide Decide;
    var act := if open then Pass else Block;
    var a, b := LanPair(open, NET192), LanPair(open, NET172);
    var c, d := LanPair(open, LINK_LOCAL4), BlockPair(None, RESERVED);
    var e, f, g, h := LanPair(open, NET10), LanPair(open, MULTICAST4), LanPair(open, MULTICAST6), LanPair(open, ULA);
    DecideAppend(a + b + c + d + e + f + g, h, p);
    DecideAppend(a + b + c + d + e + f, g, p);
    DecideAppend(a + b + c + d + e, f, p);
    DecideAppend(a + b + c + d, e, p);
    DecideAppend(a + b + c, d, p);
    DecideAppend(a + b, c, p);
    DecideAppend(a, b, p);
    DecidePair(act, None, Remote(NET192), open, p);
    DecidePair(act, None, Remote(NET172), open, p);
    DecidePair(act, None, Remote(LINK_LOCAL4), open, p);
    DecidePair(Block, None, Remote(RESERVED), false, p);
    DecidePair(act, None, Remote(NET10), open, p);
    DecidePair(act, None, Remote(MULTICAST4), open, p);
    DecidePair(act, None, Remote(MULTICAST6), open, p);
    DecidePair(act, None, Remote(ULA), open, p);
  }

  /** MAIN RESULT. First-match evaluation of the local-traffic anchor is the closed form: which packets it decides,
      how, and with which state behaviour, for every intent, every set of own addresses and every packet. */
  lemma LanRulesDecide(c: Config, own: seq<LocalAddr>, hasV6: bool, p: Packet)
    ensures Decide(LanRules(c, own, hasV6), p) == LanDecision(c, own, hasV6, p)
  {
    hide Decide, AlwaysRules, UnscopedRules, OwnRules, CarveOutBlocks, Pair, Discovery, Icmp6Error, IsOwn;
    var iface := c.vpnInterfaceName;
    var always, errors, reserved := AlwaysRules(), ErrorRules(c, hasV6), ReservedRules(c);
    var carved, unscoped := CarveOutRules(c, own), UnscopedRules(LanOpen(c));
    DecideAppend(always + errors + reserved + carved, unscoped, p);
    DecideAppend(always + errors + reserved, carved, p);
    DecideAppend(always + errors, reserved, p);
    DecideAppend(always, errors, p);
    AlwaysDecides(p);
    DecidePair(Pass, Some(iface), ICMP6_ERRORS, false, p);
    DecidePair(Pass, Some(iface), Remote(RESERVED), false, p);
    DecideNothing(p);
    OwnDecides(iface, own, p);
    CarveOutDecides(iface, p);
    DecideAppend(OwnRules(iface, own), CarveOutBlocks(iface), p);
    UnscopedDecides(LanOpen(c), p);
    Icmp6Hits(p);
  }

  lemma DecideNothing(p: Packet)
    ensures Decide([], p) == None
  {
  }

  lemma Icmp6Hits(p: Packet)
    ensures TargetHits(NDP_MLD, p) == Discovery(p) && TargetHits(ICMP6_ERRORS, p) == Icmp6Error(p)
  {
  }

  // --- Consequences ---

  /** Loopback, link-local, private, reserved, multicast and unique-local packets are all decided by this anchor, so
      nothing evaluated after it can change what happens to them. */
  lemma LaterRulesAreDead(c: Config, own: seq<LocalAddr>, hasV6: bool, later: seq<Rule>, p: Packet)
    requires AlwaysOpen(p.remote) || Private4(p.remote) || Covers(RESERVED, p.remote) || LocalV6(p.remote)
    ensures Decide(LanRules(c, own, hasV6) + later, p) == Decide(LanRules(c, own, hasV6), p)
    ensures Decide(LanRules(c, own, hasV6), p).Some?
  {
    LanRulesDecide(c, own, hasV6, p);
    DecideAppend(LanRules(c, own, hasV6), later, p);
  }

  /** Private, multicast and unique-local traffic inside the tunnel: open to custom configs only, except the reserved
      subnet, the adapter's own addresses while LAN is on, and the ICMPv6 exemptions where they are written. */
  lemma PrivateInTunnel(c: Config, own: seq<LocalAddr>, hasV6: bool, p: Packet)
    requires OnVpn(c, p) && (Private4(p.remote) || LocalV6(p.remote))
    requires !Discovery(p) && (hasV6 && !c.isCustomConfig ==> !Icmp6Error(p))
    ensures Decide(LanRules(c, own, hasV6), p).Some?
    ensures Decide(LanRules(c, own, hasV6), p).value.action.Pass? <==>
      || c.isCustomConfig
      || Covers(RESERVED, p.remote)
      || (c.allowLanTraffic && IsOwn(own, p.remote))
  {
    LanRulesDecide(c, own, hasV6, p);
  }

  /** With LAN off and no custom config the scoped blocks could be written or left out: no verdict changes. */
  lemma CarveOutWouldBeDead(c: Config, own: seq<LocalAddr>, hasV6: bool, p: Packet)
    requires c.vpnInterfaceName != "" && !LanOpen(c)
    ensures Decide(AlwaysRules() + ErrorRules(c, hasV6) + ReservedRules(c) + CarveOutBlocks(c.vpnInterfaceName) +
                   UnscopedRules(LanOpen(c)), p) ==
            Decide(LanRules(c, own, hasV6), p)
  {
    hide Decide, AlwaysRules, UnscopedRules, OwnRules, CarveOutBlocks, Pair, Discovery, Icmp6Error, IsOwn;
    var always, errors, reserved := AlwaysRules(), ErrorRules(c, hasV6), ReservedRules(c);
    var blocks, unscoped := CarveOutBlocks(c.vpnInterfaceName), UnscopedRules(LanOpen(c));
    assert CarveOutRules(c, own) == [];
    assert LanRules(c, own, hasV6) == always + errors + reserved + unscoped;
    DecideAppend(always + errors + reserved + blocks, unscoped, p);
    DecideAppend(always + errors + reserved, blocks, p);
    DecideAppend(always + errors + reserved, unscoped, p);
    CarveOutDecides(c.vpnInterfaceName, p);
    UnscopedDecides(LanOpen(c), p);
    if p.iface == c.vpnInterfaceName && Covers(RESERVED, p.remote) {
      ReservedFirst(c, hasV6, p);
    }
  }

  lemma ReservedFirst(c: Config, hasV6: bool, p: Packet)
    requires p.iface == c.vpnInterfaceName != "" && Covers(RESERVED, p.remote)
    ensures Decide(AlwaysRules() + ErrorRules(c, hasV6) + ReservedRules(c), p).Some?
  {
    DecideAppend(AlwaysRules() + ErrorRules(c, hasV6), ReservedRules(c), p);
    DecidePair(Pass, Some(c.vpnInterfaceName), Remote(RESERVED), false, p);
  }
}
