/** The tunnel and static-port anchors, and what the three anchors together decide. */
module PfTunnel {
  import opened Text
  import opened PfRules

  // --- The rules ---

  /** The server's address, as a rule names it. */
  function ServerRange(c: Config): Range
  {
    Range(c.connectingIp.text, false, c.connectingIp.bits, c.connectingIp.bits)
  }

  function PassFrom(group: Group, target: Target): seq<Rule>
  {
    [Rule(Pass, Out, None, target, false, Some(group), true)]
  }

  /** The tunnel itself, and anything the application's own group sends. */
  function TunnelRules(iface: string, hasV6: bool): seq<Rule>
  {
    PassPair(Some(iface), Anyone(false)) + (if hasV6 then PassPair(Some(iface), Anyone(true)) else []) +
    PassFrom(Windscribe, Anyone(false))
  }

  function ServerRules(c: Config): seq<Rule>
  {
    PassFrom(Wheel, Remote(ServerRange(c))) + PassFrom(Windscribe, Remote(ServerRange(c))) +
    [Rule(Pass, In, None, Remote(ServerRange(c)), false, None, true)]
  }

  function VpnRules(c: Config, hasV6: bool): seq<Rule>
  {
    (if c.vpnInterfaceName == "" then [] else TunnelRules(c.vpnInterfaceName, hasV6)) +
    (if c.connectingIp.text == "" then [] else ServerRules(c))
  }

  function PortRule(port: nat): Rule { Rule(Pass, In, None, TcpPort(port), false, None, false) }

  function PortRules(ports: seq<nat>): seq<Rule>
  {
    if ports == [] then [] else [PortRule(ports[0])] + PortRules(ports[1..])
  }

  method VpnTrafficRules(c: Config, hasV6: bool) returns (rules: seq<Rule>)
    ensures rules == VpnRules(c, hasV6)
  {
    hide Pair, ServerRange;
    rules := [];
    var iface := c.vpnInterfaceName;
    if iface != "" {
      rules := rules + PassPair(Some(iface), Anyone(false));
      if hasV6 {
        rules := rules + PassPair(Some(iface), Anyone(true));
      }
      rules := rules + PassFrom(Windscribe, Anyone(false));
    }
    assert rules == if iface == "" then [] else TunnelRules(iface, hasV6);
    if c.connectingIp.text != "" {
      rules := rules + ServerRules(c);
    }
  }

  method StaticPortsRules(ports: seq<nat>) returns (rules: seq<Rule>)
    ensures rules == PortRules(ports)
  {
    hide PortRule;
    rules := [];
    var i := 0;
    while i < |ports|
      invariant 0 <= i <= |ports|
      invariant PortRules(ports) == rules + PortRules(ports[i..])
    {
      assert ports[i..][1..] == ports[i + 1..];
      rules := rules + [PortRule(ports[i])];
      i := i + 1;
    }
  }

  // --- What they decide ---

  predicate ToServer(c: Config, p: Packet)
  {
    c.connectingIp.text != "" && !p.remote.v6 && p.remote.bits == c.connectingIp.bits
  }

  /** On the tunnel IPv4 passes, and IPv6 exactly where the tunnel has it. Elsewhere only IPv4 can pass: out from the
      application's group while there is a tunnel, out to the server from root or that group, and in from the server. */
  predicate VpnPasses(c: Config, hasV6: bool, p: Packet)
  {
    || (OnVpn(c, p) && (p.remote.v6 ==> hasV6))
    || (p.dir.Out? && !p.remote.v6 && c.vpnInterfaceName != "" && p.group == Windscribe)
    || (ToServer(c, p) && (p.dir.Out? ==> p.group == Wheel || p.group == Windscribe))
  }

  const PASS: Decision := Decision(Pass, true)

  lemma DecideOne(r: Rule, p: Packet)
    ensures Decide([r], p) == if Hits(r, p) then Outcome(Some(r)) else None
  {
    hide Hits;
    var none := [r][1..];
    assert none == [] && FirstMatch(none, p) == None;
    assert FirstMatch([r], p) == if Hits(r, p) then Some(r) else FirstMatch(none, p);
  }

  lemma TunnelDecides(iface: string, hasV6: bool, p: Packet)
    ensures Decide(TunnelRules(iface, hasV6), p) ==
      if (p.iface == iface && (p.remote.v6 ==> hasV6)) || (p.dir.Out? && !p.remote.v6 && p.group == Windscribe)
      then Some(PASS) else None
  {
    hide Decide;
    var v4, v6 := PassPair(Some(iface), Anyone(false)), PassPair(Some(iface), Anyone(true));
    DecideAppend(v4 + if hasV6 then v6 else [], PassFrom(Windscribe, Anyone(false)), p);
    DecideAppend(v4, if hasV6 then v6 else [], p);
    DecidePair(Pass, Some(iface), Anyone(false), false, p);
    DecidePair(Pass, Some(iface), Anyone(true), false, p);
    DecideNothing(p);
    DecideOne(PassFrom(Windscribe, Anyone(false))[0], p);
  }

  lemma ServerDecides(c: Config, p: Packet)
    ensures Decide(ServerRules(c), p) ==
      if !p.remote.v6 && p.remote.bits == c.connectingIp.bits &&
         (p.dir.Out? ==> p.group == Wheel || p.group == Windscribe)
      then Some(PASS) else None
  {
    hide Decide;
    var t := Remote(ServerRange(c));
    var back := Rule(Pass, In, None, t, false, None, true);
    DecideAppend(PassFrom(Wheel, t) + PassFrom(Windscribe, t), [back], p);
    DecideAppend(PassFrom(Wheel, t), PassFrom(Windscribe, t), p);
    DecideOne(PassFrom(Wheel, t)[0], p);
    DecideOne(PassFrom(Windscribe, t)[0], p);
    DecideOne(back, p);
  }

  /** First-match evaluation of the tunnel anchor is the closed form, for every intent and every packet. */
  lemma VpnRulesDecide(c: Config, hasV6: bool, p: Packet)
    ensures Decide(VpnRules(c, hasV6), p) == if VpnPasses(c, hasV6, p) then Some(PASS) else None
  {
    hide Decide, TunnelRules, ServerRules;
    var iface := c.vpnInterfaceName;
    DecideAppend(if iface == "" then [] else TunnelRules(iface, hasV6),
                 if c.connectingIp.text == "" then [] else ServerRules(c), p);
    TunnelDecides(iface, hasV6, p);
    ServerDecides(c, p);
    DecideNothing(p);
  }

  lemma {:induction false} PortsDecide(ports: seq<nat>, p: Packet)
    ensures Decide(PortRules(ports), p) ==
      if p.dir.In? && p.tcpPort.Some? && p.tcpPort.value in ports then Some(PASS) else None
  {
    if ports == [] {
      DecideNothing(p);
    } else {
      hide Decide;
      DecideAppend([PortRule(ports[0])], PortRules(ports[1..]), p);
      DecideOne(PortRule(ports[0]), p);
      PortsDecide(ports[1..], p);
      assert ports == [ports[0]] + ports[1..];
    }
  }

  // --- The three anchors in order, before the final block ---

  function AnchorRules(c: Config, own: seq<LocalAddr>, hasV6: bool): seq<Rule>
  {
    LanRules(c, own, hasV6) + VpnRules(c, hasV6) + PortRules(c.staticPorts)
  }

  function AnchorDecision(c: Config, own: seq<LocalAddr>, hasV6: bool, p: Packet): Decision
  {
    var lan := LanDecision(c, own, hasV6, p);
    if lan.Some? then lan.value
    else if VpnPasses(c, hasV6, p) then PASS
    else if p.dir.In? && p.tcpPort.Some? && p.tcpPort.value in c.staticPorts then PASS
    else Decision(Block, false)
  }

  /** MAIN RESULT. What the anchors and the final block decide about every packet no earlier rule of the main ruleset
      has decided: local traffic by the local-traffic anchor, the rest by the tunnel anchor's closed form and the open
      static ports, and nothing else passes. */
  lemma AnchorsDecide(c: Config, own: seq<LocalAddr>, hasV6: bool, p: Packet)
    ensures var d := Decide(AnchorRules(c, own, hasV6), p);
      AnchorDecision(c, own, hasV6, p) == if d.Some? then d.value else Decision(Block, false)
  {
    hide Decide, LanRules, VpnRules, PortRules, VpnPasses, LanDecision;
    DecideAppend(LanRules(c, own, hasV6) + VpnRules(c, hasV6), PortRules(c.staticPorts), p);
    DecideAppend(LanRules(c, own, hasV6), VpnRules(c, hasV6), p);
    LanRulesDecide(c, own, hasV6, p);
    VpnRulesDecide(c, hasV6, p);
    PortsDecide(c.staticPorts, p);
  }

  /** What the local-traffic anchor leaves open leaves the machine only on the tunnel, from the application's group, or
      to the server from root; IPv6 only on a tunnel that has it. */
  lemma NothingElseLeaves(c: Config, own: seq<LocalAddr>, hasV6: bool, p: Packet)
    requires p.dir.Out? && LanDecision(c, own, hasV6, p).None?
    requires var d := Decide(AnchorRules(c, own, hasV6), p); d.Some? && d.value.action.Pass?
    ensures p.remote.v6 ==> OnVpn(c, p) && hasV6
    ensures OnVpn(c, p) || p.group == Windscribe || (p.group == Wheel && ToServer(c, p))
  {
    hide Decide, AnchorRules, LanDecision;
    AnchorsDecide(c, own, hasV6, p);
  }
}
