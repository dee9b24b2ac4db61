/** The main sublayer: what turning the firewall on puts in it, and how the split-tunnelling filters follow the
    settings through every run. */
module MainRun {
  import opened Text
  import opened Wfp

  /** The arguments of on(). */
  datatype Config = Config(connectingIp: IpRange, ips: seq<IpRange>, allowLan: bool, custom: bool)

  /** The fixed surroundings: the tunnel adapters, and the system services always allowed to reach the server. */
  datatype Env = Env(taps: seq<Tap>, services: seq<nat>)

  datatype Split = Split(
    enabled: bool, exclusive: bool, apps: seq<nat>, vpnApps: seq<nat>, ips: seq<IpRange>,
    idsApps: seq<nat>, idsIps: seq<nat>)

  const RESERVED := IpRange(V4, 0x0AFF_FF00, 0x0AFF_FFFF)
  const PRIVATE := [
    IpRange(V4, 0x0A00_0000, 0x0AFF_FFFF), IpRange(V4, 0xAC10_0000, 0xAC1F_FFFF),
    IpRange(V4, 0xC0A8_0000, 0xC0A8_FFFF), IpRange(V4, 0xA9FE_0000, 0xA9FE_FFFF)]
  const MULTICAST4 := IpRange(V4, 0xE000_0000, 0xEFFF_FFFF)
  const LOOPBACK4 := IpRange(V4, 0x7F00_0000, 0x7FFF_FFFF)

  // --- What on() adds ---

  function AllOf(v6: bool, action: Action, weight: nat): Add { Add(v6, action, weight, None, None, 0, None, true) }

  function RangesOf(v6: bool, action: Action, weight: nat, ranges: seq<IpRange>): Add
  {
    Add(v6, action, weight, None, Some(ranges), 0, None, true)
  }

  /** A runtime-only call scoped to a tunnel adapter. */
  function OnTap(v6: bool, action: Action, weight: nat, tap: Tap, ranges: Option<seq<IpRange>>): Add
  {
    Add(v6, action, weight, Some(tap.luid), ranges, 0, None, false)
  }

  function PortOf(v6: bool, port: nat): Add { Add(v6, Permit, 5, None, None, port, None, true) }

  function CarveOut(tap: Tap): seq<Add>
  {
    [OnTap(false, Block, 6, tap, Some(PRIVATE + [MULTICAST4])),
     OnTap(true, Block, 6, tap, Some([UNIQUE_LOCAL, MULTICAST]))]
  }

  function OwnAddresses(tap: Tap): seq<Add>
  {
    if tap.addresses == [] then [] else [Add(false, Permit, 8, None, Some(tap.addresses), 0, None, false)]
  }

  function TapAdds(tap: Tap, cfg: Config): seq<Add>
  {
    [OnTap(false, Permit, 8, tap, Some([RESERVED]))] +
    (if cfg.custom then [] else OwnAddresses(tap) + if cfg.allowLan then CarveOut(tap) else []) +
    [OnTap(false, Permit, 1, tap, None)] +
    if tap.hasV6 then [OnTap(true, Permit, 1, tap, None)] else []
  }

  function AllTapAdds(taps: seq<Tap>, cfg: Config): seq<Add>
  {
    if taps == [] then [] else TapAdds(taps[0], cfg) + AllTapAdds(taps[1..], cfg)
  }

  function ConnectingAdd(cfg: Config, env: Env, vpnApps: seq<nat>): Add
  {
    Add(false, Permit, 2, None, Some([cfg.connectingIp]), 0, Some(env.services + vpnApps), false)
  }

  function AddressAdds(ips: seq<IpRange>): seq<Add>
  {
    if ips == [] then [] else [RangesOf(false, Permit, 2, [ips[0]])] + AddressAdds(ips[1..])
  }

  function DhcpAdds(): seq<Add> { [PortOf(false, 68), PortOf(false, 67), PortOf(true, 546), PortOf(true, 547)] }

  function AlwaysAdds(): seq<Add>
  {
    [RangesOf(false, Permit, 8, [LOOPBACK4]), RangesOf(true, Permit, 8, [LOOPBACK]),
     RangesOf(true, Permit, 8, [LINK_LOCAL]), AddIcmp6(130, 137, 8), AddIcmp6(143, 143, 8)]
  }

  function LocalAdds(cfg: Config): seq<Add>
  {
    var lan := if cfg.allowLan || cfg.custom then Permit else Block;
    [RangesOf(false, lan, 4, PRIVATE), RangesOf(false, Block, 5, [RESERVED]), RangesOf(false, lan, 4, [MULTICAST4]),
     RangesOf(true, lan, 4, [MULTICAST]), RangesOf(true, lan, 4, [UNIQUE_LOCAL])]
  }

  function FixedAdds(cfg: Config): seq<Add> { DhcpAdds() + AlwaysAdds() + LocalAdds(cfg) }

  function Before(cfg: Config, env: Env): seq<Add>
  {
    [AllOf(false, Block, 0), AllOf(true, Block, 0)] + AllTapAdds(env.taps, cfg)
  }

  function After(cfg: Config, env: Env, vpnApps: seq<nat>): seq<Add>
  {
    [ConnectingAdd(cfg, env, vpnApps)] + AddressAdds(cfg.ips) + FixedAdds(cfg)
  }

  /** The filters of on() other than the split-tunnelling ones. */
  function OtherFilters(cfg: Config, env: Env, vpnApps: seq<nat>): seq<Filter>
  {
    ExpandAll(Main, Before(cfg, env)) + ExpandAll(Main, After(cfg, env, vpnApps))
  }

  function SplitPermit(v6: bool, ranges: Option<seq<IpRange>>, apps: Option<seq<nat>>): Add
  {
    Add(v6, Permit, 2, None, ranges, 0, apps, false)
  }

  function AppAdds(s: Split): seq<Add>
  {
    if !s.enabled then []
    else if !s.exclusive then [SplitPermit(false, None, None), SplitPermit(true, None, None)]
    else if s.apps == [] then []
    else [SplitPermit(false, None, Some(s.apps)), SplitPermit(true, None, Some(s.apps))]
  }

  function IpAdds(s: Split): seq<Add>
  {
    if !s.enabled || !s.exclusive || s.ips == [] then []
    else [SplitPermit(false, Some(s.ips), None), SplitPermit(true, Some(s.ips), None)]
  }

  function AppFilters(s: Split): seq<Filter> { ExpandAll(Main, AppAdds(s)) }

  function IpFilters(s: Split): seq<Filter> { ExpandAll(Main, IpAdds(s)) }

  // --- Steps ---

  datatype Event =
    | On(cfg: Config, subOk: bool)
    | Off
    | SetEnabled(exclusive: bool)
    | SetDisabled
    | SetApps(apps: seq<nat>)
    | SetVpnApps(apps: seq<nat>)
    | SetIps(ips: seq<IpRange>)

  /** `base` records what the last on() added besides the split-tunnelling filters. */
  datatype Sys = Sys(engine: Engine, split: Split, base: seq<Filter>)

  predicate IsOn(e: Engine) { Main in e.sublayers }

  function AddApps(e: Engine, s: Split): (Engine, Split)
  {
    (AddFilters(e, AppFilters(s)), s.(idsApps := s.idsApps + Ids(e.nextId, |AppFilters(s)|)))
  }

  function AddIps(e: Engine, s: Split): (Engine, Split)
  {
    (AddFilters(e, IpFilters(s)), s.(idsIps := s.idsIps + Ids(e.nextId, |IpFilters(s)|)))
  }

  function RemoveApps(e: Engine, s: Split): (Engine, Split) { (DropIds(e, s.idsApps), s.(idsApps := [])) }

  function RemoveIps(e: Engine, s: Split): (Engine, Split) { (DropIds(e, s.idsIps), s.(idsIps := [])) }

  function ReplaceApps(e: Engine, s: Split): (Engine, Split)
  {
    var (e1, s1) := RemoveApps(e, s);
    AddApps(e1, s1)
  }

  function ReplaceIps(e: Engine, s: Split): (Engine, Split)
  {
    var (e1, s1) := RemoveIps(e, s);
    AddIps(e1, s1)
  }

  /** The lists are cleared only when a sublayer is there to delete, as on() does, or always, as off() does. */
  function TurnOff(e: Engine): Engine { if IsOn(e) then DropSublayer(e, Main) else e }

  function Forget(s: Split): Split { s.(idsApps := [], idsIps := []) }

  function TurnOn(e: Engine, s: Split, env: Env, cfg: Config): (Engine, Split)
  {
    var e1 := AddFilters(e.(sublayers := e.sublayers + {Main}), ExpandAll(Main, Before(cfg, env)));
    var (e2, s2) := AddApps(e1, s);
    var (e3, s3) := AddIps(e2, s2);
    (AddFilters(e3, ExpandAll(Main, After(cfg, env, s.vpnApps))), s3)
  }

  function StepOn(y: Sys, env: Env, cfg: Config, subOk: bool): Sys
  {
    var e := TurnOff(y.engine);
    var s := if IsOn(y.engine) then Forget(y.split) else y.split;
    if !subOk then Sys(e, s, y.base)
    else
      var (e', s') := TurnOn(e, s, env, cfg);
      Sys(e', s', OtherFilters(cfg, env, s.vpnApps))
  }

  function StepEnabled(y: Sys, exclusive: bool): Sys
  {
    var (e1, s1) := RemoveApps(y.engine, y.split);
    var (e2, s2) := RemoveIps(e1, s1);
    var s3 := s2.(enabled := true, exclusive := exclusive);
    if !IsOn(e2) then Sys(e2, s3, y.base)
    else
      var (e4, s4) := AddApps(e2, s3);
      var (e5, s5) := AddIps(e4, s4);
      Sys(e5, s5, y.base)
  }

  function StepDisabled(y: Sys): Sys
  {
    var (e1, s1) := RemoveApps(y.engine, y.split);
    var (e2, s2) := RemoveIps(e1, s1);
    Sys(e2, s2.(enabled := false), y.base)
  }

  /** A changed application list is followed at once when split tunnelling and the firewall are on. */
  function RefreshApps(y: Sys, s: Split): Sys
  {
    if s.enabled && IsOn(y.engine) then var (e', s') := ReplaceApps(y.engine, s); Sys(e', s', y.base)
    else Sys(y.engine, s, y.base)
  }

  function Step(y: Sys, env: Env, ev: Event): Sys
  {
    match ev
    case On(cfg, subOk) => StepOn(y, env, cfg, subOk)
    case Off => Sys(TurnOff(y.engine), Forget(y.split), y.base)
    case SetEnabled(exclusive) => StepEnabled(y, exclusive)
    case SetDisabled => StepDisabled(y)
    case SetApps(apps) => if y.split.apps == apps then y else RefreshApps(y, y.split.(apps := apps))
    case SetVpnApps(apps) => if y.split.vpnApps == apps then y else RefreshApps(y, y.split.(vpnApps := apps))
    case SetIps(ips) =>
      var s := y.split.(ips := ips);
      if y.split.ips == ips then y
      else if s.enabled && IsOn(y.engine) then var (e', s') := ReplaceIps(y.engine, s); Sys(e', s', y.base)
      else Sys(y.engine, s, y.base)
  }

  function Run(y: Sys, env: Env, events: seq<Event>): Sys
    decreases |events|
  {
    if events == [] then y else Run(Step(y, env, events[0]), env, events[1..])
  }
}
