/** The macOS firewall controller: its methods, step by step, against the state transitions of PfState. */
module PfController {
  import opened PfRules
  import opened PfState
  import opened PfTunnel
  import PfSync

  /** One gated `pfctl -T load`: replaces the contents of one table. */
  method LoadTableDef(k: Kernel, table: Table, entries: seq<string>, changed: bool, lands: bool)
    returns (k': Kernel, ok: bool)
    ensures ok == (changed ==> lands)
    ensures k' == TableLoaded(k, table, SetOf(entries), changed && lands)
  {
    k', ok := k, true;
    if changed {
      ok := lands;
      if lands {
        k' := k.(pieces := WithTable(k.pieces, table, SetOf(entries)));
      }
    }
  }

  /** One gated `pfctl -a <anchor> -f`: replaces the rules of one anchor. */
  method LoadAnchor(k: Kernel, anchor: Anchor, rules: seq<string>, changed: bool, lands: bool)
    returns (k': Kernel, ok: bool)
    ensures ok == (changed ==> lands)
    ensures k' == AnchorLoaded(k, anchor, rules, changed && lands)
  {
    k', ok := k, true;
    if changed {
      ok := lands;
      if lands {
        k' := k.(pieces := WithAnchor(k.pieces, anchor, rules));
      }
    }
  }

  /** Reloads every piece whose gate is open; returns the new pf and the texts the gates compared. */
  method ReloadChanged(s: State, valid: string -> bool, config: Config, live: Live, force: bool, o: Loads)
    returns (k: Kernel, ok: bool, lan: seq<string>, vpn: seq<string>, disallowed: seq<string>)
    ensures var t := TargetPieces(config, live, valid);
      var a := Attempts(s, config, live, valid, force);
      && k == s.kernel.(pieces := Land(s.kernel.pieces, t, Both(a, o)))
      && ok == (Both(a, o) == a)
      && lan == t.lan && vpn == t.vpn && disallowed == KeepValid(valid, live.resolvers)
  {
    hide LanText, VpnText, KeepValid, PortsText, SetOf, Land, TableLoaded, AnchorLoaded, ProbedV6;
    var newIps := force || SetOf(config.allowedIps) != SetOf(s.lastConfig.allowedIps);
    var okIps, okLan, okVpn, okPorts, okDisallowed, hasV6;
    k, okIps := LoadTableDef(s.kernel, IpsTable, config.allowedIps, newIps, o.ips);
    lan, hasV6 := LanTrafficText(config, live);
    var newLan := force || lan != s.lastLan;
    k, okLan := LoadAnchor(k, LanAnchor, lan, newLan, o.lan);
    vpn := VpnTrafficText(config, hasV6);
    var newVpn := force || vpn != s.lastVpn;
    k, okVpn := LoadAnchor(k, VpnAnchor, vpn, newVpn, o.vpn);
    var ports := StaticPortsText(config.staticPorts);
    var newPorts := force || config.staticPorts != s.lastConfig.staticPorts;
    k, okPorts := LoadAnchor(k, PortsAnchor, ports, newPorts, o.ports);
    disallowed := KeepValidIps(valid, live.resolvers);
    var newDisallowed := force || disallowed != s.lastDisallowed;
    k, okDisallowed := LoadTableDef(k, DisallowedDnsTable, disallowed, newDisallowed, o.disallowed);
    ghost var a := Loads(newIps, newDisallowed, newLan, newVpn, newPorts);
    LandInOrder(s.kernel, TargetPieces(config, live, valid), Both(a, o));
    ok := okIps && okLan && okVpn && okPorts && okDisallowed;
  }

  class FirewallController {
    const valid: string -> bool

    var enabled: bool
    var vpnDns: seq<string>
    var lastConfig: Config
    var hasLastConfig: bool
    var lastDisallowedDnsDef: seq<string>
    var lastLanTrafficRules: seq<string>
    var lastVpnTrafficRules: seq<string>
    /** pf itself: changed only by the loads below. */
    var kernel: Kernel

    function Abstract(): State
      reads this
    {
      State(enabled, vpnDns, hasLastConfig, lastConfig, lastDisallowedDnsDef, lastLanTrafficRules, lastVpnTrafficRules,
            kernel)
    }

    constructor (validIp: string -> bool, pf: Kernel)
      ensures valid == validIp
      ensures Abstract() == State(false, [], false, NO_CONFIG, [], [], [], pf)
    {
      valid := validIp;
      enabled, hasLastConfig := false, false;
      vpnDns, lastDisallowedDnsDef, lastLanTrafficRules, lastVpnTrafficRules := [], [], [], [];
      lastConfig := NO_CONFIG;
      kernel := pf;
    }

    method Enable(config: Config, live: Live, o: Outcomes) returns (ok: bool)
      modifies this
      ensures (Abstract(), ok) == AfterEnable(old(Abstract()), config, live, valid, o)
      ensures ok ==> hasLastConfig && lastConfig == config
      ensures old(PfSync.InSync(Abstract())) && ok ==>
                PfSync.InSync(Abstract()) && kernel.pieces == TargetPieces(config, live, valid)
    {
      hide TargetPieces, Attempts, AfterUpdateDns, PfSync.InSync;
      if PfSync.InSync(Abstract()) {
        PfSync.EnableSyncs(Abstract(), config, live, valid, o);
      }
      if !hasLastConfig {
        if kernel.pfEnabled && OurRulesPresent(kernel) {
          ok := ApplyTargeted(config, live, true, o.loads);
          if !ok {
            return false;
          }
          enabled := true;
          if vpnDns != [] {
            UpdateDns(o.dns);
          }
        } else {
          ok := FullApply(config, live, o);
          if !ok {
            return false;
          }
        }
      } else {
        ok := ApplyTargeted(config, live, false, o.loads);
        if !ok {
          return false;
        }
      }
      lastConfig := config;
      hasLastConfig := true;
      return true;
    }

    method ApplyTargeted(config: Config, live: Live, force: bool, o: Loads) returns (ok: bool)
      modifies this
      ensures (Abstract(), ok) == AfterTargeted(old(Abstract()), config, live, valid, force, o)
    {
      hide LanText, VpnText, KeepValid, PortsText, SetOf, Land, ProbedV6;
      var lan, vpn, disallowed;
      kernel, ok, lan, vpn, disallowed := ReloadChanged(Abstract(), valid, config, live, force, o);
      if ok {
        if force || lan != lastLanTrafficRules {
          lastLanTrafficRules := lan;
        }
        if force || vpn != lastVpnTrafficRules {
          lastVpnTrafficRules := vpn;
        }
        if force || disallowed != lastDisallowedDnsDef {
          lastDisallowedDnsDef := disallowed;
        }
      }
    }

    method FullApply(config: Config, live: Live, o: Outcomes) returns (ok: bool)
      modifies this
      ensures (Abstract(), ok) == AfterFull(old(Abstract()), config, live, valid, o)
    {
      hide LanRules, RenderAll, VpnText, KeepValid, PortsText, HasV6, OwnAddrs, AfterUpdateDns;
      lastDisallowedDnsDef := KeepValidIps(valid, live.resolvers);
      var hasV6;
      lastLanTrafficRules, hasV6 := LanTrafficText(config, live);
      lastVpnTrafficRules := VpnTrafficText(config, hasV6);
      var ports := StaticPortsText(config.staticPorts);
      if !o.full.write {
        return false;
      }
      if !o.full.parse {
        return false;
      }
      if !o.full.load {
        kernel := kernel.(main := NO_MAIN, pieces := NO_PIECES, vpnDns := {});
        return false;
      }
      var pieces := Pieces(SetOf(config.allowedIps), SetOf(lastDisallowedDnsDef), lastLanTrafficRules,
                           lastVpnTrafficRules, ports);
      kernel := kernel.(main := OUR_MAIN, pieces := pieces, vpnDns := {});
      enabled := true;
      if o.full.on {
        kernel := kernel.(pfEnabled := true);
      }
      UpdateDns(o.dns);
      return true;
    }

    method Disable(keepPfEnabled: bool, o: Teardown) returns (ok: bool)
      modifies this
      ensures (Abstract(), ok) == AfterDisable(old(Abstract()), keepPfEnabled, o)
      ensures !enabled && !hasLastConfig && vpnDns == old(vpnDns)
      ensures ok ==> kernel.main == NO_MAIN && kernel.pieces == NO_PIECES && kernel.vpnDns == {}
      ensures ok && !keepPfEnabled ==> !kernel.pfEnabled
      ensures PfSync.InSync(Abstract())
    {
      ok := o.load;
      if o.load || o.flushed {
        kernel := kernel.(main := NO_MAIN, pieces := NO_PIECES, vpnDns := {});
      }
      if !keepPfEnabled {
        if o.off {
          kernel := kernel.(pfEnabled := false);
        }
        ok := o.off && ok;
      }
      enabled := false;
      hasLastConfig := false;
      lastConfig := NO_CONFIG;
      lastDisallowedDnsDef, lastLanTrafficRules, lastVpnTrafficRules := [], [], [];
    }

    method SetVpnDns(list: seq<Dns>, loads: bool)
      modifies this
      ensures Abstract() == AfterSetVpnDns(old(Abstract()), list, loads)
      ensures old(PfSync.InSync(Abstract())) ==> PfSync.InSync(Abstract())
    {
      hide PfSync.InSync, AfterUpdateDns;
      if PfSync.InSync(Abstract()) {
        PfSync.DnsKeepsSync(Abstract(), list, loads);
      }
      vpnDns := KeepValidDns(list);
      UpdateDns(loads);
    }

    method UpdateDns(loads: bool)
      modifies this
      ensures Abstract() == AfterUpdateDns(old(Abstract()), loads)
    {
      if enabled && vpnDns != [] {
        if loads {
          kernel := kernel.(vpnDns := SetOf(vpnDns));
        }
      } else {
        kernel := kernel.(vpnDns := {});
      }
    }
  }

  /** The entries of the disallowed-resolver table. */
  method KeepValidIps(valid: string -> bool, resolvers: seq<string>) returns (entries: seq<string>)
    ensures entries == KeepValid(valid, resolvers)
  {
    hide KeepValid;
    entries := [];
    var i := 0;
    assert resolvers[0..] == resolvers;
    while i < |resolvers|
      invariant 0 <= i <= |resolvers|
      invariant KeepValid(valid, resolvers) == entries + KeepValid(valid, resolvers[i..])
    {
      KeepValidFrom(valid, resolvers, i);
      if valid(resolvers[i]) {
        entries := entries + [resolvers[i]];
      }
      i := i + 1;
    }
    KeepValidFrom(valid, resolvers, i);
  }

  lemma KeepValidFrom(valid: string -> bool, ips: seq<string>, i: nat)
    requires i <= |ips|
    ensures KeepValid(valid, ips[i..]) ==
      if i == |ips| then [] else (if valid(ips[i]) then [ips[i]] else []) + KeepValid(valid, ips[i + 1..])
  {
    assert i < |ips| ==> ips[i..][1..] == ips[i + 1..];
  }

  method KeepValidDns(list: seq<Dns>) returns (dns: seq<string>)
    ensures dns == ValidDns(list)
  {
    hide ValidDns;
    dns := [];
    var i := 0;
    ValidDnsFrom(list, 0);
    while i < |list|
      invariant 0 <= i <= |list|
      invariant ValidDns(list) == dns + ValidDns(list[i..])
    {
      ValidDnsFrom(list, i);
      if list[i].valid {
        dns := dns + [list[i].text];
      }
      i := i + 1;
    }
    ValidDnsFrom(list, i);
  }

  lemma ValidDnsFrom(list: seq<Dns>, i: nat)
    requires i <= |list|
    ensures list[0..] == list
    ensures i == |list| ==> ValidDns(list[i..]) == []
    ensures i < |list| ==>
      ValidDns(list[i..]) == (if list[i].valid then [list[i].text] else []) + ValidDns(list[i + 1..])
  {
    assert i < |list| ==> list[i..][1..] == list[i + 1..];
  }

  /** One probe of the interface gives the local-traffic rules and the v6 capability for the tunnel rules. */
  method LanTrafficText(c: Config, live: Live) returns (text: seq<string>, hasV6: bool)
    ensures text == LanText(c, live) && hasV6 == ProbedV6(live, c.vpnInterfaceName)
  {
    var own;
    own, hasV6 := ProbeInterfaceAddresses(c.vpnInterfaceName, live);
    var rules := LanTrafficRules(c, own, hasV6);
    text := RenderAll(rules);
  }

  method VpnTrafficText(c: Config, hasV6: bool) returns (text: seq<string>)
    ensures text == VpnText(c, hasV6)
  {
    var rules := VpnTrafficRules(c, hasV6);
    text := RenderAll(rules);
  }

  method StaticPortsText(ports: seq<nat>) returns (text: seq<string>)
    ensures text == PortsText(ports)
  {
    var rules := StaticPortsRules(ports);
    text := RenderAll(rules);
  }

  lemma ProbeEnds(addrs: seq<IfAddr>, iface: string)
    ensures addrs[0..] == addrs && addrs[..|addrs|] == addrs
    ensures OwnAddrs(addrs[|addrs|..], iface) == [] && !HasV6(addrs[..0], iface)
  {
  }

  lemma ProbeStep(addrs: seq<IfAddr>, iface: string, i: nat)
    requires i < |addrs|
    ensures var cur := addrs[i];
      && OwnAddrs(addrs[i..], iface) ==
         (if cur.name == iface && cur.kind.Inet? then [cur.kind.addr] else []) + OwnAddrs(addrs[i + 1..], iface)
      && (HasV6(addrs[..i + 1], iface) <==>
          HasV6(addrs[..i], iface) || (cur.name == iface && cur.kind.Inet6? && !cur.kind.linkLocal))
  {
    assert addrs[i..][1..] == addrs[i + 1..];
    assert addrs[..i + 1] == addrs[..i] + [addrs[i]];
  }

  /** One walk over the interface addresses feeds both outputs. */
  method WalkAddresses(iface: string, addrs: seq<IfAddr>) returns (v4Addrs: seq<LocalAddr>, hasNonLinkLocalV6: bool)
    ensures v4Addrs == OwnAddrs(addrs, iface) && hasNonLinkLocalV6 == HasV6(addrs, iface)
  {
    hide OwnAddrs, HasV6;
    v4Addrs, hasNonLinkLocalV6 := [], false;
    ProbeEnds(addrs, iface);
    var i := 0;
    while i < |addrs|
      invariant 0 <= i <= |addrs|
      invariant OwnAddrs(addrs, iface) == v4Addrs + OwnAddrs(addrs[i..], iface)
      invariant hasNonLinkLocalV6 == HasV6(addrs[..i], iface)
    {
      ProbeStep(addrs, iface, i);
      var cur := addrs[i];
      if cur.name == iface {
        if cur.kind.Inet? {
          v4Addrs := v4Addrs + [cur.kind.addr];
        } else if cur.kind.Inet6? && !cur.kind.linkLocal {
          hasNonLinkLocalV6 := true;
        }
      }
      i := i + 1;
    }
  }

  method ProbeInterfaceAddresses(iface: string, live: Live) returns (v4Addrs: seq<LocalAddr>, hasNonLinkLocalV6: bool)
    ensures v4Addrs == ProbedAddrs(live, iface) && hasNonLinkLocalV6 == ProbedV6(live, iface)
  {
    v4Addrs, hasNonLinkLocalV6 := [], false;
    if iface != "" {
      v4Addrs, hasNonLinkLocalV6 := WalkAddresses(iface, live.addrs);
    }
  }
}
