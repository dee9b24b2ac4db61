/** What the main sublayer decides about every packet while the firewall is on. */
module MainVerdict {
  import opened Text
  import opened Wfp
  import opened WfpVerdict
  import opened MainRun

  function MainAdds(cfg: Config, env: Env, vpnApps: seq<nat>, s: Split): seq<Add>
  {
    Before(cfg, env) + After(cfg, env, vpnApps) + AppAdds(s) + IpAdds(s)
  }

  // --- The verdict in closed form ---

  /** An IPv4 address of one of the tunnel adapters; the packet may be on any interface. */
  predicate OwnAddress(taps: seq<Tap>, p: Packet)
  {
    exists tap :: tap in taps && InRanges(false, tap.addresses, p.remote)
  }

  /** The packet belongs to one of the programs allowed to reach the server, and goes there. */
  predicate ToServer(cfg: Config, env: Env, vpnApps: seq<nat>, p: Packet)
  {
    && cfg.connectingIp.family == V4 && cfg.connectingIp.lo <= p.remote <= cfg.connectingIp.hi
    && (env.services + vpnApps == [] || p.app in env.services + vpnApps)
  }

  /** Split tunnelling lets the packet out: everything in inclusive mode, the listed programs and destinations in
      exclusive mode. */
  predicate SplitCovers(s: Split, p: Packet)
  {
    s.enabled && (!s.exclusive || p.app in s.apps || InRanges(IsV6Layer(p.layer), s.ips, p.remote))
  }

  /** A DHCP packet to the reserved range off the tunnel meets a permit and a block of the same weight, so no filter
      decides it. Every other packet is decided. */
  function Verdict4(cfg: Config, env: Env, vpnApps: seq<nat>, s: Split, p: Packet): Option<Action>
  {
    var tunnel := OnTunnel(env.taps, p);
    var dhcp := p.localPort == 67 || p.localPort == 68;
    if Loopback4(p.remote) || (tunnel && Reserved4(p.remote)) || (!cfg.custom && OwnAddress(env.taps, p)) then
      Some(Permit)
    else if tunnel && cfg.allowLan && !cfg.custom && Local4(p.remote) then Some(Block)
    else if Reserved4(p.remote) then (if dhcp then None else Some(Block))
    else if dhcp then Some(Permit)
    else if Local4(p.remote) then Some(if cfg.allowLan || cfg.custom then Permit else Block)
    else if tunnel || ToServer(cfg, env, vpnApps, p) || InRanges(false, cfg.ips, p.remote) || SplitCovers(s, p) then
      Some(Permit)
    else Some(Block)
  }

  function Verdict6(cfg: Config, env: Env, s: Split, p: Packet): Action
  {
    if p.remote == 1 || LinkLocal6(p.remote) || Discovery(p) then Permit
    else if OnTunnel(env.taps, p) && cfg.allowLan && !cfg.custom && Local6(p.remote) then Block
    else if p.localPort == 546 || p.localPort == 547 then Permit
    else if Local6(p.remote) then (if cfg.allowLan || cfg.custom then Permit else Block)
    else if OnV6Tunnel(env.taps, p) || SplitCovers(s, p) then Permit
    else Block
  }

  function Verdict(cfg: Config, env: Env, vpnApps: seq<nat>, s: Split, p: Packet): Option<Action>
  {
    if IsV6Layer(p.layer) then Some(Verdict6(cfg, env, s, p)) else Verdict4(cfg, env, vpnApps, s, p)
  }

  // --- The greatest weights of each group of calls ---

  /** To a local range of the packet's family. */
  predicate Local(p: Packet) { if IsV6Layer(p.layer) then Local6(p.remote) else Local4(p.remote) }

  function TapsPermit(taps: seq<Tap>, cfg: Config, p: Packet): int
  {
    var v6 := IsV6Layer(p.layer);
    if !v6 && ((OnTunnel(taps, p) && Reserved4(p.remote)) || (!cfg.custom && OwnAddress(taps, p))) then 8
    else if (if v6 then OnV6Tunnel(taps, p) else OnTunnel(taps, p)) then 1
    else -1
  }

  function TapsBlock(taps: seq<Tap>, cfg: Config, p: Packet): int
  {
    if cfg.allowLan && !cfg.custom && OnTunnel(taps, p) && Local(p) then 6 else -1
  }

  lemma OneRange(v6: bool, r: IpRange, remote: nat)
    ensures InRanges(v6, [r], remote) <==> r.family == FamilyOf(v6) && r.lo <= remote <= r.hi
  {
    assert r in [r];
  }

  lemma LocalRanges(remote: nat)
    ensures InRanges(false, PRIVATE + [MULTICAST4], remote) <==> Local4(remote)
    ensures InRanges(true, [UNIQUE_LOCAL, MULTICAST], remote) <==> Local6(remote)
    ensures InRanges(false, PRIVATE, remote) || InRanges(false, [MULTICAST4], remote) <==> Local4(remote)
  {
    OneRange(false, MULTICAST4, remote);
    var p := PRIVATE + [MULTICAST4];
    assert p[0] in p && p[1] in p && p[2] in p && p[3] in p && p[4] in p;
    assert PRIVATE[0] in PRIVATE && PRIVATE[1] in PRIVATE && PRIVATE[2] in PRIVATE && PRIVATE[3] in PRIVATE;
    var q := [UNIQUE_LOCAL, MULTICAST];
    assert q[0] in q && q[1] in q;
  }

  lemma OnTapTop(v6: bool, action: Action, weight: nat, tap: Tap, ranges: Option<seq<IpRange>>, p: Packet,
                 asked: Action)
    requires ranges.Some? ==> ranges.value != []
    ensures TopOf(OnTap(v6, action, weight, tap, ranges), p, asked) ==
      if asked == action && IsV6Layer(p.layer) == v6 && p.luid == tap.luid &&
         (ranges.Some? ==> InRanges(v6, ranges.value, p.remote)) then weight
      else -1
  {
    hide InRanges;
  }

  lemma OwnTop(tap: Tap, p: Packet, asked: Action)
    ensures Top(OwnAddresses(tap), p, asked) ==
      if asked == Permit && !IsV6Layer(p.layer) && InRanges(false, tap.addresses, p.remote) then 8 else -1
  {
    hide InRanges;
    NoRange(false, p.remote);
  }

  lemma CarveOutTop(tap: Tap, p: Packet, asked: Action)
    ensures Top(CarveOut(tap), p, asked) == if asked == Block && tap.luid == p.luid && Local(p) then 6 else -1
  {
    hide InRanges, OnTap, TopOf, Local4, Local6;
    LocalRanges(p.remote);
    TopTwo(CarveOut(tap)[0], CarveOut(tap)[1], p, asked);
    OnTapTop(false, Block, 6, tap, Some(PRIVATE + [MULTICAST4]), p, asked);
    OnTapTop(true, Block, 6, tap, Some([UNIQUE_LOCAL, MULTICAST]), p, asked);
  }

  lemma NoRange(v6: bool, remote: nat)
    ensures !InRanges(v6, [], remote)
  {
  }

  lemma TapTop(tap: Tap, cfg: Config, p: Packet, asked: Action)
    ensures Top(TapAdds(tap, cfg), p, asked) ==
      if asked == Permit then TapsPermit([tap], cfg, p) else TapsBlock([tap], cfg, p)
  {
    hide InRanges, OnTap, TopOf, Reserved4, Local, OwnAddresses, CarveOut;
    var first, all, v6 := OnTap(false, Permit, 8, tap, Some([RESERVED])), OnTap(false, Permit, 1, tap, None),
                          OnTap(true, Permit, 1, tap, None);
    var middle := if cfg.custom then [] else OwnAddresses(tap) + if cfg.allowLan then CarveOut(tap) else [];
    var last := if tap.hasV6 then [v6] else [];
    TopAppend([first] + middle + [all], last, p, asked);
    TopAppend([first] + middle, [all], p, asked);
    TopAppend([first], middle, p, asked);
    TopAppend(OwnAddresses(tap), if cfg.allowLan then CarveOut(tap) else [], p, asked);
    OwnTop(tap, p, asked);
    CarveOutTop(tap, p, asked);
    OnTapTop(false, Permit, 8, tap, Some([RESERVED]), p, asked);
    OnTapTop(false, Permit, 1, tap, None, p, asked);
    OnTapTop(true, Permit, 1, tap, None, p, asked);
    assert InRanges(false, [RESERVED], p.remote) <==> Reserved4(p.remote) by { FixedRanges(p.remote); }
    assert tap in [tap];
  }

  lemma {:induction false} TapsTop(taps: seq<Tap>, cfg: Config, p: Packet)
    ensures Top(AllTapAdds(taps, cfg), p, Permit) == TapsPermit(taps, cfg, p)
    ensures Top(AllTapAdds(taps, cfg), p, Block) == TapsBlock(taps, cfg, p)
  {
    hide InRanges, Top, Local4, Local6, TapAdds, Reserved4;
    if taps == [] {
      TopIsGreatest([], p, Permit);
      TopIsGreatest([], p, Block);
    } else {
      TapTop(taps[0], cfg, p, Permit);
      TapTop(taps[0], cfg, p, Block);
      TapsTop(taps[1..], cfg, p);
      TopAppend(TapAdds(taps[0], cfg), AllTapAdds(taps[1..], cfg), p, Permit);
      TopAppend(TapAdds(taps[0], cfg), AllTapAdds(taps[1..], cfg), p, Block);
      assert taps == [taps[0]] + taps[1..];
    }
  }

  function DhcpPermit(p: Packet): int
  {
    if (if IsV6Layer(p.layer) then p.localPort == 546 || p.localPort == 547 else p.localPort == 67 || p.localPort == 68)
    then 5
    else -1
  }

  function AlwaysPermit(p: Packet): int
  {
    if (if IsV6Layer(p.layer) then p.remote == 1 || LinkLocal6(p.remote) || Discovery(p) else Loopback4(p.remote))
    then 8
    else -1
  }

  function LocalPermit(cfg: Config, p: Packet): int
  {
    if Local(p) && (cfg.allowLan || cfg.custom) then 4 else -1
  }

  function LocalBlock(cfg: Config, p: Packet): int
  {
    if !IsV6Layer(p.layer) && Reserved4(p.remote) then 5
    else if Local(p) && !cfg.allowLan && !cfg.custom then 4
    else -1
  }

  lemma DhcpTop(p: Packet, asked: Action)
    ensures Top(DhcpAdds(), p, asked) == if asked == Permit then DhcpPermit(p) else -1
  {
    hide Top;
    var adds := DhcpAdds();
    assert adds[0] in adds && adds[1] in adds && adds[2] in adds && adds[3] in adds;
    TopIsGreatest(adds, p, asked);
  }

  lemma AlwaysTop(p: Packet, asked: Action)
    ensures Top(AlwaysAdds(), p, asked) == if asked == Permit then AlwaysPermit(p) else -1
  {
    hide Top, InRanges, Loopback4, LinkLocal6;
    FixedRanges(p.remote);
    var adds := AlwaysAdds();
    assert adds[0] in adds && adds[1] in adds && adds[2] in adds && adds[3] in adds && adds[4] in adds;
    TopIsGreatest(adds, p, asked);
  }

  lemma LocalTop(cfg: Config, p: Packet, asked: Action)
    ensures Top(LocalAdds(cfg), p, asked) == if asked == Permit then LocalPermit(cfg, p) else LocalBlock(cfg, p)
  {
    hide Top, InRanges, Local4, Local6, Reserved4;
    FixedRanges(p.remote);
    var adds := LocalAdds(cfg);
    assert adds[0] in adds && adds[1] in adds && adds[2] in adds && adds[3] in adds && adds[4] in adds;
    TopIsGreatest(adds, p, asked);
  }

  lemma FixedRanges(remote: nat)
    ensures InRanges(false, [LOOPBACK4], remote) <==> Loopback4(remote)
    ensures InRanges(true, [LOOPBACK], remote) <==> remote == 1
    ensures InRanges(true, [LINK_LOCAL], remote) <==> LinkLocal6(remote)
    ensures InRanges(false, [RESERVED], remote) <==> Reserved4(remote)
    ensures InRanges(false, PRIVATE, remote) || InRanges(false, [MULTICAST4], remote) <==> Local4(remote)
    ensures InRanges(true, [MULTICAST], remote) || InRanges(true, [UNIQUE_LOCAL], remote) <==> Local6(remote)
  {
    hide InRanges;
    LocalRanges(remote);
    OneRange(false, LOOPBACK4, remote);
    OneRange(true, LOOPBACK, remote);
    OneRange(true, LINK_LOCAL, remote);
    OneRange(false, RESERVED, remote);
    OneRange(true, MULTICAST, remote);
    OneRange(true, UNIQUE_LOCAL, remote);
  }

  lemma {:induction false} AddressesTop(ips: seq<IpRange>, p: Packet, asked: Action)
    ensures Top(AddressAdds(ips), p, asked) ==
      if asked == Permit && !IsV6Layer(p.layer) && InRanges(false, ips, p.remote) then 2 else -1
  {
    hide InRanges, Applies;
    if ips == [] {
      NoRange(false, p.remote);
    } else {
      AddressesTop(ips[1..], p, asked);
      AddressTop(ips[0], p, asked);
      MoreRanges(false, ips, p.remote);
    }
  }

  lemma AddressTop(ip: IpRange, p: Packet, asked: Action)
    ensures TopOf(RangesOf(false, Permit, 2, [ip]), p, asked) ==
      if asked == Permit && !IsV6Layer(p.layer) && InRanges(false, [ip], p.remote) then 2 else -1
  {
    hide InRanges;
  }

  lemma MoreRanges(v6: bool, ips: seq<IpRange>, remote: nat)
    requires ips != []
    ensures InRanges(v6, ips, remote) <==> InRanges(v6, [ips[0]], remote) || InRanges(v6, ips[1..], remote)
  {
    assert ips == [ips[0]] + ips[1..];
  }

  lemma ServerTop(cfg: Config, env: Env, vpnApps: seq<nat>, p: Packet, asked: Action)
    ensures Top([ConnectingAdd(cfg, env, vpnApps)], p, asked) ==
      if asked == Permit && !IsV6Layer(p.layer) && ToServer(cfg, env, vpnApps, p) then 2 else -1
  {
    hide InRanges;
    OneRange(false, cfg.connectingIp, p.remote);
  }

  lemma SplitTop(s: Split, p: Packet, asked: Action)
    ensures Greater(Top(AppAdds(s), p, asked), Top(IpAdds(s), p, asked)) ==
      if asked == Permit && SplitCovers(s, p) then 2 else -1
  {
    hide InRanges;
    NoRange(IsV6Layer(p.layer), p.remote);
    TopTwo(SplitPermit(false, None, None), SplitPermit(true, None, None), p, asked);
    TopTwo(SplitPermit(false, None, Some(s.apps)), SplitPermit(true, None, Some(s.apps)), p, asked);
    TopTwo(SplitPermit(false, Some(s.ips), None), SplitPermit(true, Some(s.ips), None), p, asked);
  }

  lemma AllTop(p: Packet, asked: Action)
    ensures Top([AllOf(false, Block, 0), AllOf(true, Block, 0)], p, asked) == if asked == Permit then -1 else 0
  {
    TopTwo(AllOf(false, Block, 0), AllOf(true, Block, 0), p, asked);
  }

  // --- The verdict ---

  function GreatestPermit(cfg: Config, env: Env, vpnApps: seq<nat>, s: Split, p: Packet): int
  {
    var v4 := !IsV6Layer(p.layer);
    var low := if (v4 && (ToServer(cfg, env, vpnApps, p) || InRanges(false, cfg.ips, p.remote))) || SplitCovers(s, p)
               then 2 else -1;
    Greater(Greater(TapsPermit(env.taps, cfg, p), low),
            Greater(Greater(DhcpPermit(p), AlwaysPermit(p)), LocalPermit(cfg, p)))
  }

  lemma MainTop(cfg: Config, env: Env, vpnApps: seq<nat>, s: Split, p: Packet, asked: Action)
    ensures Top(MainAdds(cfg, env, vpnApps, s), p, asked) ==
      if asked == Permit then GreatestPermit(cfg, env, vpnApps, s, p)
      else Greater(Greater(0, TapsBlock(env.taps, cfg, p)), LocalBlock(cfg, p))
  {
    hide Top, AllTapAdds, ConnectingAdd, AddressAdds, DhcpAdds, AlwaysAdds, LocalAdds, AppAdds, IpAdds, AllOf;
    hide TapsPermit, TapsBlock, DhcpPermit, AlwaysPermit, LocalPermit, LocalBlock, ToServer, InRanges, SplitCovers;
    var before, after := Before(cfg, env), After(cfg, env, vpnApps);
    TopAppend(before + after + AppAdds(s), IpAdds(s), p, asked);
    TopAppend(before + after, AppAdds(s), p, asked);
    TopAppend(before, after, p, asked);
    TopAppend([AllOf(false, Block, 0), AllOf(true, Block, 0)], AllTapAdds(env.taps, cfg), p, asked);
    TopAppend([ConnectingAdd(cfg, env, vpnApps)] + AddressAdds(cfg.ips), FixedAdds(cfg), p, asked);
    TopAppend([ConnectingAdd(cfg, env, vpnApps)], AddressAdds(cfg.ips), p, asked);
    TopAppend(DhcpAdds() + AlwaysAdds(), LocalAdds(cfg), p, asked);
    TopAppend(DhcpAdds(), AlwaysAdds(), p, asked);
    AllTop(p, asked);
    TapsTop(env.taps, cfg, p);
    ServerTop(cfg, env, vpnApps, p, asked);
    AddressesTop(cfg.ips, p, asked);
    DhcpTop(p, asked);
    AlwaysTop(p, asked);
    LocalTop(cfg, p, asked);
    SplitTop(s, p, asked);
  }

  /** The calls of on() and of split tunnelling decide every packet by the closed form. */
  lemma MainDecides(cfg: Config, env: Env, vpnApps: seq<nat>, s: Split, p: Packet, action: Action)
    ensures AddsDecide(MainAdds(cfg, env, vpnApps, s), p, action)
      <==> Verdict(cfg, env, vpnApps, s, p) == Some(action)
  {
    hide AddsDecide, MainAdds, Top, ToServer, OwnAddress, OnTunnel, OnV6Tunnel, InRanges, SplitCovers, Discovery;
    MainTop(cfg, env, vpnApps, s, p, Permit);
    MainTop(cfg, env, vpnApps, s, p, Block);
    DecidesByTop(MainAdds(cfg, env, vpnApps, s), p, action);
    V6TunnelIsTunnel(env.taps, p);
  }

  lemma V6TunnelIsTunnel(taps: seq<Tap>, p: Packet)
    ensures OnV6Tunnel(taps, p) ==> OnTunnel(taps, p)
  {
  }
}
