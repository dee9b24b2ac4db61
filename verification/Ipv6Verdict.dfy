/** What the IPv6 sublayer decides about every packet while the block is installed. */
module Ipv6Verdict {
  import opened Text
  import opened Wfp
  import opened WfpCalls
  import opened WfpVerdict
  import opened Ipv6Run

  // --- The verdict in closed form ---

  predicate ListedApp(s: State, p: Packet) { p.app in s.apps }

  predicate ListedDestination(s: State, p: Packet) { InRanges(true, s.ips, p.remote) }

  /** Permitted whatever the mode: the local host, link-local addresses, discovery, and local networks if allowed. */
  predicate Essential(s: State, p: Packet)
  {
    || p.remote == 1 || LinkLocal6(p.remote) || Discovery(p)
    || ((s.allowLan || s.custom) && Local6(p.remote))
  }

  /** On a tunnel adapter with IPv6 the block-all and the adapter's permit have the same weight, so neither decides
      where nothing else does; IPv4 packets meet no filter here. */
  function Verdict(s: State, taps: seq<Tap>, p: Packet): Option<Action>
  {
    if !IsV6Layer(p.layer) then None
    else if Essential(s, p) then Some(Permit)
    else
      match s.mode
      case Disabled => if OnV6Tunnel(taps, p) then None else Some(Block)
      case Inclusive =>
        if OnV6Tunnel(taps, p) && s.apps != [] then Some(Permit)
        else if ListedApp(s, p) || ListedDestination(s, p) then Some(Block)
        else Some(Permit)
      case Exclusive =>
        if ListedApp(s, p) || ListedDestination(s, p) then Some(Permit)
        else if OnV6Tunnel(taps, p) then None
        else Some(Block)
  }

  // --- The greatest weights of each group of calls ---

  function DestAdds(s: State): seq<Add> { if s.mode == Disabled || s.ips == [] then [] else [DestAdd(s)] }

  lemma {:induction false} TunnelTop(taps: seq<Tap>, weight: nat, p: Packet, asked: Action)
    ensures Top(TunnelPermits(taps, weight), p, asked) ==
      if asked == Permit && IsV6Layer(p.layer) && OnV6Tunnel(taps, p) then weight else -1
  {
    if taps != [] {
      TunnelTop(taps[1..], weight, p, asked);
      var first := if taps[0].hasV6 then [Add(true, Permit, weight, Some(taps[0].luid), None, 0, None, true)] else [];
      TopAppend(first, TunnelPermits(taps[1..], weight), p, asked);
      assert taps == [taps[0]] + taps[1..];
    }
  }

  lemma ToTop(action: Action, weight: nat, ranges: seq<IpRange>, p: Packet, asked: Action)
    requires ranges != []
    ensures TopOf(To(action, weight, ranges), p, asked) ==
      if asked == action && IsV6Layer(p.layer) && InRanges(true, ranges, p.remote) then weight else -1
  {
    hide InRanges;
  }

  lemma Ranges(remote: nat)
    ensures InRanges(true, [LOOPBACK], remote) <==> remote == 1
    ensures InRanges(true, [LINK_LOCAL], remote) <==> LinkLocal6(remote)
    ensures InRanges(true, [UNIQUE_LOCAL, MULTICAST], remote) <==> Local6(remote)
  {
    assert LOOPBACK in [LOOPBACK] && LINK_LOCAL in [LINK_LOCAL];
    var q := [UNIQUE_LOCAL, MULTICAST];
    assert q[0] in q && q[1] in q;
  }

  lemma EssentialsTop(s: State, p: Packet, asked: Action)
    ensures Greater(Top(Essentials(), p, asked), Top(LanAdds(s), p, asked)) ==
      if asked == Permit && IsV6Layer(p.layer) && Essential(s, p) then 4 else -1
  {
    hide InRanges, Local6, LinkLocal6, To;
    Ranges(p.remote);
    var a, b, c, d := To(Permit, 4, [LOOPBACK]), To(Permit, 4, [LINK_LOCAL]), AddIcmp6(130, 137, 4),
                      AddIcmp6(143, 143, 4);
    assert Essentials() == [a, b] + [c, d];
    TopAppend([a, b], [c, d], p, asked);
    TopTwo(a, b, p, asked);
    TopTwo(c, d, p, asked);
    ToTop(Permit, 4, [LOOPBACK], p, asked);
    ToTop(Permit, 4, [LINK_LOCAL], p, asked);
    ToTop(Permit, 4, [UNIQUE_LOCAL, MULTICAST], p, asked);
  }

  function ModePermit(s: State, taps: seq<Tap>, p: Packet): int
  {
    if !IsV6Layer(p.layer) then -1
    else if s.mode == Inclusive then (if s.apps != [] && OnV6Tunnel(taps, p) then 4 else 2)
    else if s.mode == Exclusive && (ListedApp(s, p) || ListedDestination(s, p)) then 2
    else -1
  }

  function ModeBlock(s: State, p: Packet): int
  {
    if IsV6Layer(p.layer) && s.mode == Inclusive && (ListedApp(s, p) || ListedDestination(s, p)) then 3 else -1
  }

  lemma AppsTop(action: Action, weight: nat, apps: seq<nat>, p: Packet, asked: Action)
    requires apps != []
    ensures TopOf(ForApps(action, weight, apps), p, asked) ==
      if asked == action && IsV6Layer(p.layer) && p.app in apps then weight else -1
  {
  }

  lemma ModeTop(s: State, taps: seq<Tap>, p: Packet, asked: Action)
    ensures Greater(Top(ModeAdds(s, taps), p, asked), Top(DestAdds(s), p, asked)) ==
      if asked == Permit then ModePermit(s, taps, p) else ModeBlock(s, p)
  {
    hide InRanges, TunnelPermits, ForApps, To, OnV6Tunnel;
    NoDestination(p.remote);
    TunnelTop(taps, 4, p, asked);
    if s.ips != [] {
      ToTop(Block, 3, s.ips, p, asked);
      ToTop(Permit, 2, s.ips, p, asked);
    }
    if s.apps != [] {
      AppsTop(Block, 3, s.apps, p, asked);
      AppsTop(Permit, 2, s.apps, p, asked);
      TopAppend([All(Permit, 2)], [ForApps(Block, 3, s.apps)] + TunnelPermits(taps, 4), p, asked);
      TopAppend([ForApps(Block, 3, s.apps)], TunnelPermits(taps, 4), p, asked);
    } else {
      TopAppend([All(Permit, 2)], [], p, asked);
    }
  }

  lemma NoDestination(remote: nat)
    ensures !InRanges(true, [], remote)
  {
  }

  // --- The verdict ---

  lemma AllTop(s: State, taps: seq<Tap>, p: Packet, asked: Action)
    ensures Top(BaseAdds(s, taps) + DestAdds(s), p, asked) ==
      if !IsV6Layer(p.layer) then -1
      else if asked == Block then Greater(0, ModeBlock(s, p))
      else
        Greater(Greater(if OnV6Tunnel(taps, p) then 0 else -1, if Essential(s, p) then 4 else -1),
                ModePermit(s, taps, p))
  {
    hide Top, TunnelPermits, Essentials, LanAdds, ModeAdds, DestAdds, Essential, OnV6Tunnel, ListedApp;
    hide ListedDestination;
    var first, tunnel := [All(Block, 0)], TunnelPermits(taps, 0);
    TopAppend(BaseAdds(s, taps), DestAdds(s), p, asked);
    TopAppend(first + tunnel + Essentials() + LanAdds(s), ModeAdds(s, taps), p, asked);
    TopAppend(first + tunnel + Essentials(), LanAdds(s), p, asked);
    TopAppend(first + tunnel, Essentials(), p, asked);
    TopAppend(first, tunnel, p, asked);
    BlockAllTop(p, asked);
    TunnelTop(taps, 0, p, asked);
    EssentialsTop(s, p, asked);
    ModeTop(s, taps, p, asked);
  }

  lemma BlockAllTop(p: Packet, asked: Action)
    ensures Top([All(Block, 0)], p, asked) == if asked == Block && IsV6Layer(p.layer) then 0 else -1
  {
  }

  /** The calls of a build decide every packet by the closed form. */
  lemma BuildDecides(s: State, taps: seq<Tap>, p: Packet, action: Action)
    ensures AddsDecide(BaseAdds(s, taps) + DestAdds(s), p, action) <==> Verdict(s, taps, p) == Some(action)
  {
    hide AddsDecide, BaseAdds, DestAdds, Top, OnV6Tunnel, Essential, ListedApp, ListedDestination;
    AllTop(s, taps, p, Permit);
    AllTop(s, taps, p, Block);
    DecidesByTop(BaseAdds(s, taps) + DestAdds(s), p, action);
  }

  /** While the block is installed the sublayer decides every packet by the closed form. */
  lemma SublayerDecidesBy(e: Engine, s: State, taps: seq<Tap>, p: Packet, action: Action)
    requires Inv(e, s, taps) && s.installed
    ensures SublayerDecides(e, Ipv6, p, action) <==> Verdict(s, taps, p) == Some(action)
  {
    hide Holds, Decides, AddsDecide, ExpandAll, BaseAdds, DestAdd, Expand, SublayerDecides, Fresh, Verdict;
    var base :| HoldsWith(e, s, taps, base);
    ExpandAppend(Ipv6, BaseAdds(s, taps), DestAdds(s));
    ExpandOne(Ipv6, DestAdd(s));
    assert DestFilters(s) == ExpandAll(Ipv6, DestAdds(s));
    BuildDecides(s, taps, p, action);
    DecidesByAdds(Ipv6, BaseAdds(s, taps) + DestAdds(s), p, action);
    HoldsDecides(e, Ipv6, base + s.ids, BaseFilters(s, taps) + DestFilters(s), p, action);
  }

  /** In every run in which rebuilds succeed, while the block is installed it decides every packet by the closed form of
      the current settings. */
  lemma RunDecidesEveryPacket(e: Engine, s: State, taps: seq<Tap>, events: seq<Event>, p: Packet, action: Action)
    requires Inv(e, s, taps) && forall ev :: ev in events ==> RebuildsSucceed(ev)
    ensures var (e', s') := Run(e, s, taps, events);
      s'.installed ==> (SublayerDecides(e', Ipv6, p, action) <==> Verdict(s', taps, p) == Some(action))
  {
    hide Inv, Run, RebuildsSucceed, SublayerDecides, Verdict;
    RunKeeps(e, s, taps, events);
    var (e', s') := Run(e, s, taps, events);
    if s'.installed {
      SublayerDecidesBy(e', s', taps, p, action);
    }
  }
}
