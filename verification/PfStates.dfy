/** pf's state table next to the local-traffic anchor: reloading the anchor leaves states alone, so a pass that keeps
    state can outlive the rule. States are keyed by interface and flow. */
module PfStates {
  import opened PfRules

  /** What a state entry matches, in either direction. */
  datatype Flow = Flow(iface: string, remote: Addr, icmp6: bool, id: nat)

  /** A packet of a flow; `later` says what the rules after the anchor do with a packet the anchor leaves open. */
  datatype Event =
    | Push(config: Config, own: seq<LocalAddr>, hasV6: bool)
    | Arrive(packet: Packet, id: nat, later: Decision)

  datatype Firewall = Firewall(rules: seq<Rule>, states: set<Flow>)

  function FlowOf(p: Packet, id: nat): Flow { Flow(p.iface, p.remote, p.icmp6.Some?, id) }

  /** A packet of a known flow passes unexamined; any other is judged by the rules. */
  function Verdict(f: Firewall, p: Packet, id: nat, later: Decision): Decision
  {
    if FlowOf(p, id) in f.states then Decision(Pass, true)
    else if Decide(f.rules, p).Some? then Decide(f.rules, p).value
    else later
  }

  function Step(f: Firewall, e: Event): Firewall
  {
    match e
    case Push(config, own, hasV6) => f.(rules := LanRules(config, own, hasV6))
    case Arrive(p, id, later) =>
      var d := Verdict(f, p, id, later);
      if d.action.Pass? && d.keepsState then f.(states := f.states + {FlowOf(p, id)}) else f
  }

  function Run(f: Firewall, es: seq<Event>): Firewall
    decreases |es|
  {
    if es == [] then f else Run(Step(f, es[0]), es[1..])
  }

  /** The ranges whose permission follows the Allow LAN setting, and the reserved subnet. */
  predicate LanAddress(a: Addr)
  {
    (Private4(a) || Covers(RESERVED, a) || LocalV6(a)) && !AlwaysOpen(a)
  }

  /** No pushed intent names `iface` as the VPN interface. */
  predicate NeverVpn(es: seq<Event>, iface: string)
  {
    forall e :: e in es && e.Push? ==> e.config.vpnInterfaceName != iface
  }

  /** The rules in force never keep state for LAN packets on `iface`. */
  ghost predicate LanStateless(f: Firewall, iface: string)
  {
    && (forall fl :: fl in f.states && fl.iface == iface && LanAddress(fl.remote) ==> fl.icmp6)
    && (forall p: Packet :: p.iface == iface && LanAddress(p.remote) && p.icmp6.None? ==>
         Decide(f.rules, p).Some? && !Decide(f.rules, p).value.keepsState)
  }

  lemma PushStateless(f: Firewall, e: Event, iface: string)
    requires e.Push? && e.config.vpnInterfaceName != iface && iface != "" && LanStateless(f, iface)
    ensures LanStateless(Step(f, e), iface)
  {
    var rules := LanRules(e.config, e.own, e.hasV6);
    forall p: Packet | p.iface == iface && LanAddress(p.remote) && p.icmp6.None?
      ensures Decide(rules, p).Some? && !Decide(rules, p).value.keepsState
    {
      LanRulesDecide(e.config, e.own, e.hasV6, p);
    }
  }

  lemma {:induction false} RunStateless(f: Firewall, es: seq<Event>, iface: string)
    requires LanStateless(f, iface) && NeverVpn(es, iface) && iface != ""
    ensures LanStateless(Run(f, es), iface)
    decreases |es|
  {
    if es != [] {
      var e := es[0];
      assert e in es;
      if e.Push? {
        PushStateless(f, e, iface);
      }
      RunStateless(Step(f, e), es[1..], iface);
    }
  }

  /** A freshly loaded anchor: a full load flushes every state. */
  function FullLoad(config: Config, own: seq<LocalAddr>, hasV6: bool): Firewall
  {
    Firewall(LanRules(config, own, hasV6), {})
  }

  /** MAIN RESULT. In every run of pushes and packets after a full load, a packet that is not ICMPv6, to a LAN address
      on an interface that never was the VPN interface, has left no state behind; so once Allow LAN is off and the
      config is not custom it is blocked, from the first packet on, whatever flows were live before. */
  lemma LanOffBlocksAtOnce(c0: Config, own0: seq<LocalAddr>, v60: bool, es: seq<Event>,
                           c: Config, own: seq<LocalAddr>, hasV6: bool, p: Packet, id: nat, later: Decision)
    requires p.iface != "" && c0.vpnInterfaceName != p.iface && NeverVpn(es, p.iface) && c.vpnInterfaceName != p.iface
    requires LanAddress(p.remote) && p.icmp6.None?
    ensures var f := Run(FullLoad(c0, own0, v60), es);
      && FlowOf(p, id) !in f.states
      && (!c.allowLanTraffic && !c.isCustomConfig ==>
            Verdict(Step(f, Push(c, own, hasV6)), p, id, later) == Decision(Block, false))
  {
    var start := FullLoad(c0, own0, v60);
    forall q: Packet | q.iface == p.iface && LanAddress(q.remote) && q.icmp6.None?
      ensures Decide(start.rules, q).Some? && !Decide(start.rules, q).value.keepsState
    {
      LanRulesDecide(c0, own0, v60, q);
    }
    RunStateless(start, es, p.iface);
    LanRulesDecide(c, own, hasV6, p);
  }
}
