/** The macOS firewall controller's state, the pf rulesets it drives, and what each operation does to them. */
module PfState {
  import opened PfRules
  import opened PfTunnel

  // --- Live machine state ---

  datatype IfAddrKind = Inet(addr: LocalAddr) | Inet6(linkLocal: bool) | OtherFamily

  datatype IfAddr = IfAddr(name: string, kind: IfAddrKind)

  /** What one operation can observe: the interface addresses (none when the walk fails) and the OS resolvers. */
  datatype Live = Live(addrs: seq<IfAddr>, resolvers: seq<string>)

  function OwnAddrs(addrs: seq<IfAddr>, iface: string): seq<LocalAddr>
  {
    if addrs == [] then []
    else
      (if addrs[0].name == iface && addrs[0].kind.Inet? then [addrs[0].kind.addr] else []) + OwnAddrs(addrs[1..], iface)
  }

  /** The interface carries an IPv6 address that is not link-local. */
  predicate HasV6(addrs: seq<IfAddr>, iface: string)
  {
    exists a :: a in addrs && a.name == iface && a.kind.Inet6? && !a.kind.linkLocal
  }

  function ProbedAddrs(live: Live, iface: string): seq<LocalAddr>
  {
    if iface == "" then [] else OwnAddrs(live.addrs, iface)
  }

  predicate ProbedV6(live: Live, iface: string) { iface != "" && HasV6(live.addrs, iface) }

  function KeepValid(valid: string -> bool, ips: seq<string>): seq<string>
  {
    if ips == [] then [] else (if valid(ips[0]) then [ips[0]] else []) + KeepValid(valid, ips[1..])
  }

  function SetOf(s: seq<string>): set<string> { set x | x in s }

  // --- The texts of the three anchors ---

  function PortsText(ports: seq<nat>): seq<string> { RenderAll(PortRules(ports)) }

  function VpnText(c: Config, hasV6: bool): seq<string> { RenderAll(VpnRules(c, hasV6)) }

  function LanText(c: Config, live: Live): seq<string>
  {
    RenderAll(LanRules(c, ProbedAddrs(live, c.vpnInterfaceName), ProbedV6(live, c.vpnInterfaceName)))
  }

  // --- pf ---

  /** What the controller keeps up to date in pf: two tables and three anchors. */
  datatype Pieces = Pieces(
    ips: set<string>, disallowed: set<string>, lan: seq<string>, vpn: seq<string>, ports: seq<string>)

  datatype Table = IpsTable | DisallowedDnsTable

  datatype Anchor = LanAnchor | VpnAnchor | PortsAnchor

  function WithTable(p: Pieces, t: Table, entries: set<string>): Pieces
  {
    match t
    case IpsTable => p.(ips := entries)
    case DisallowedDnsTable => p.(disallowed := entries)
  }

  function WithAnchor(p: Pieces, a: Anchor, rules: seq<string>): Pieces
  {
    match a
    case LanAnchor => p.(lan := rules)
    case VpnAnchor => p.(vpn := rules)
    case PortsAnchor => p.(ports := rules)
  }

  /** The landmarks of the main ruleset the controller looks for. */
  datatype Main = Main(vpnAnchor: bool, lanAnchor: bool, portsAnchor: bool, blockAll: bool, disallowedDns: bool)

  datatype Kernel = Kernel(pfEnabled: bool, main: Main, pieces: Pieces, vpnDns: set<string>)

  const NO_MAIN: Main := Main(false, false, false, false, false)
  const OUR_MAIN: Main := Main(true, true, true, true, true)
  const NO_PIECES: Pieces := Pieces({}, {}, [], [], [])

  predicate OurRulesPresent(k: Kernel) { k.main == OUR_MAIN }

  // --- The controller ---

  datatype State = State(
    enabled: bool,
    vpnDns: seq<string>,
    hasLastConfig: bool,
    lastConfig: Config,
    lastDisallowed: seq<string>,
    lastLan: seq<string>,
    lastVpn: seq<string>,
    kernel: Kernel)

  const NO_CONFIG: Config := Config(LocalAddr("", 0), [], false, false, "", [])

  /** What a full build installs for this intent from this live state. */
  function TargetPieces(c: Config, live: Live, valid: string -> bool): Pieces
  {
    Pieces(SetOf(c.allowedIps), SetOf(KeepValid(valid, live.resolvers)), LanText(c, live),
           VpnText(c, ProbedV6(live, c.vpnInterfaceName)), PortsText(c.staticPorts))
  }

  /** What the diff gates compare against. */
  function Baseline(s: State): Pieces
  {
    Pieces(SetOf(s.lastConfig.allowedIps), SetOf(s.lastDisallowed), s.lastLan, s.lastVpn,
           PortsText(s.lastConfig.staticPorts))
  }

  /** One flag for each piece: which loads are attempted, or which loads pf accepts. */
  datatype Loads = Loads(ips: bool, disallowed: bool, lan: bool, vpn: bool, ports: bool)

  function Attempts(s: State, c: Config, live: Live, valid: string -> bool, force: bool): Loads
  {
    Loads(
      force || SetOf(c.allowedIps) != SetOf(s.lastConfig.allowedIps),
      force || KeepValid(valid, live.resolvers) != s.lastDisallowed,
      force || LanText(c, live) != s.lastLan,
      force || VpnText(c, ProbedV6(live, c.vpnInterfaceName)) != s.lastVpn,
      force || c.staticPorts != s.lastConfig.staticPorts)
  }

  function Both(a: Loads, o: Loads): Loads
  {
    Loads(a.ips && o.ips, a.disallowed && o.disallowed, a.lan && o.lan, a.vpn && o.vpn, a.ports && o.ports)
  }

  /** The pieces after loading those marked. */
  function Land(current: Pieces, target: Pieces, landed: Loads): Pieces
  {
    Pieces(
      if landed.ips then target.ips else current.ips,
      if landed.disallowed then target.disallowed else current.disallowed,
      if landed.lan then target.lan else current.lan,
      if landed.vpn then target.vpn else current.vpn,
      if landed.ports then target.ports else current.ports)
  }

  /** pf after one load, if it lands. */
  function TableLoaded(k: Kernel, t: Table, entries: set<string>, lands: bool): Kernel
  {
    if lands then k.(pieces := WithTable(k.pieces, t, entries)) else k
  }

  function AnchorLoaded(k: Kernel, a: Anchor, rules: seq<string>, lands: bool): Kernel
  {
    if lands then k.(pieces := WithAnchor(k.pieces, a, rules)) else k
  }

  /** Loading the marked pieces one after the other. */
  lemma LandInOrder(k: Kernel, t: Pieces, l: Loads)
    ensures
      var k1 := TableLoaded(k, IpsTable, t.ips, l.ips);
      var k2 := AnchorLoaded(k1, LanAnchor, t.lan, l.lan);
      var k3 := AnchorLoaded(k2, VpnAnchor, t.vpn, l.vpn);
      var k4 := AnchorLoaded(k3, PortsAnchor, t.ports, l.ports);
      TableLoaded(k4, DisallowedDnsTable, t.disallowed, l.disallowed) == k.(pieces := Land(k.pieces, t, l))
  {
  }

  /** Targeted loads: every attempted load lands or not on its own; the caches move only when all of them landed. */
  function AfterTargeted(s: State, c: Config, live: Live, valid: string -> bool, force: bool, o: Loads): (State, bool)
  {
    var a := Attempts(s, c, live, valid, force);
    var ok := Both(a, o) == a;
    var t := TargetPieces(c, live, valid);
    var s' := s.(kernel := s.kernel.(pieces := Land(s.kernel.pieces, t, Both(a, o))));
    if ok then (s'.(lastDisallowed := KeepValid(valid, live.resolvers), lastLan := t.lan, lastVpn := t.vpn), true)
    else (s', false)
  }

  /** Writing the ruleset file, the dry run, the flushing load, and `pfctl -e`, whose result nobody looks at. */
  datatype FullLoad = FullLoad(write: bool, parse: bool, load: bool, on: bool)

  datatype Outcomes = Outcomes(loads: Loads, full: FullLoad, dns: bool)

  /** The VPN resolver table follows the list while enabled and is flushed otherwise. */
  function AfterUpdateDns(s: State, loads: bool): State
  {
    if s.enabled && s.vpnDns != [] then
      if loads then s.(kernel := s.kernel.(vpnDns := SetOf(s.vpnDns))) else s
    else s.(kernel := s.kernel.(vpnDns := {}))
  }

  /** A full load replaces everything, or leaves everything, or, failing after the flush, empties everything. */
  function AfterFull(s: State, c: Config, live: Live, valid: string -> bool, o: Outcomes): (State, bool)
  {
    var t := TargetPieces(c, live, valid);
    var cached := s.(lastDisallowed := KeepValid(valid, live.resolvers), lastLan := t.lan, lastVpn := t.vpn);
    if !o.full.write || !o.full.parse then (cached, false)
    else if !o.full.load then (cached.(kernel := s.kernel.(main := NO_MAIN, pieces := NO_PIECES, vpnDns := {})), false)
    else
      var k := Kernel(s.kernel.pfEnabled || o.full.on, OUR_MAIN, t, {});
      (AfterUpdateDns(cached.(enabled := true, kernel := k), o.dns), true)
  }

  function AfterEnable(s: State, c: Config, live: Live, valid: string -> bool, o: Outcomes): (State, bool)
  {
    var (s', ok) :=
      if s.hasLastConfig then AfterTargeted(s, c, live, valid, false, o.loads)
      else if s.kernel.pfEnabled && OurRulesPresent(s.kernel) then
        var (adopted, ok) := AfterTargeted(s, c, live, valid, true, o.loads);
        if !ok then (adopted, false)
        else
          var on := adopted.(enabled := true);
          (if on.vpnDns != [] then AfterUpdateDns(on, o.dns) else on, true)
      else AfterFull(s, c, live, valid, o);
    if ok then (s'.(lastConfig := c, hasLastConfig := true), true) else (s', false)
  }

  /** The system ruleset replaces ours when the first command lands; a failure leaves or empties the ruleset. */
  datatype Teardown = Teardown(load: bool, flushed: bool, off: bool)

  function AfterDisable(s: State, keepPfEnabled: bool, o: Teardown): (State, bool)
  {
    var k := if o.load || o.flushed then s.kernel.(main := NO_MAIN, pieces := NO_PIECES, vpnDns := {}) else s.kernel;
    var k' := if !keepPfEnabled && o.off then k.(pfEnabled := false) else k;
    (s.(enabled := false, hasLastConfig := false, lastConfig := NO_CONFIG, lastDisallowed := [], lastLan := [],
        lastVpn := [], kernel := k'),
     o.load && (keepPfEnabled || o.off))
  }

  datatype Dns = Dns(valid: bool, text: string)

  function ValidDns(list: seq<Dns>): seq<string>
  {
    if list == [] then [] else (if list[0].valid then [list[0].text] else []) + ValidDns(list[1..])
  }

  function AfterSetVpnDns(s: State, list: seq<Dns>, loads: bool): State
  {
    AfterUpdateDns(s.(vpnDns := ValidDns(list)), loads)
  }
}
