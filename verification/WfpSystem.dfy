/** Both sublayers over one engine: interleaved runs, and what they decide about every packet. */
module WfpSystem {
  import opened Text
  import opened Wfp
  import opened WfpVerdict
  import V6 = Ipv6Run
  import V = Ipv6Verdict
  import opened MainRun
  import opened MainVerdict
  import M = MainInv

  // --- Interleaved runs ---

  datatype Event = OnIpv6(v6: V6.Event) | OnMain(main: MainRun.Event)

  /** Both controllers over one engine, with the configuration and VPN executables of the last main on(). */
  datatype Joint = Joint(engine: Engine, v6: V6.State, split: Split, cfg: Config, vpnApps: seq<nat>)

  function MainSys(j: Joint, env: Env): Sys { Sys(j.engine, j.split, OtherFilters(j.cfg, env, j.vpnApps)) }

  function Step(j: Joint, env: Env, ev: Event): Joint
  {
    match ev
    case OnIpv6(v6) =>
      var (e', s') := V6.Step(j.engine, j.v6, env.taps, v6);
      j.(engine := e', v6 := s')
    case OnMain(main) =>
      var y := MainRun.Step(MainSys(j, env), env, main);
      var j' := j.(engine := y.engine, split := y.split);
      if main.On? && main.subOk then j'.(cfg := main.cfg, vpnApps := j.split.vpnApps) else j'
  }

  function Run(j: Joint, env: Env, events: seq<Event>): Joint
    decreases |events|
  {
    if events == [] then j else Run(Step(j, env, events[0]), env, events[1..])
  }

  ghost predicate Inv(j: Joint, env: Env)
  {
    V6.Inv(j.engine, j.v6, env.taps) && M.Inv(MainSys(j, env))
  }

  predicate RebuildsSucceed(ev: Event) { ev.OnIpv6? ==> V6.RebuildsSucceed(ev.v6) }

  /** A step of the main firewall does not disturb the IPv6 sublayer. */
  lemma Ipv6Undisturbed(e: Engine, e': Engine, s: V6.State, taps: seq<Tap>)
    requires V6.Inv(e, s, taps) && M.OthersKept(e, e') && Fresh(e')
    ensures V6.Inv(e', s, taps)
  {
    hide Holds, Rest, Fresh, V6.BaseFilters, V6.DestFilters;
    if s.installed {
      assert Ipv6 in e.sublayers - {Main};
      var base :| V6.HoldsWith(e, s, taps, base);
      HoldsOfRest(e, e', Main, Ipv6, base + s.ids, V6.BaseFilters(s, taps) + V6.DestFilters(s));
      assert V6.HoldsWith(e', s, taps, base);
    }
  }

  /** A step of the IPv6 firewall does not disturb the main sublayer. */
  lemma MainUndisturbed(y: Sys, e': Engine)
    requires M.Inv(y) && Rest(e', Ipv6) == Rest(y.engine, Ipv6) && Fresh(e')
    requires e'.sublayers - {Ipv6} == y.engine.sublayers - {Ipv6}
    ensures M.Inv(y.(engine := e'))
  {
    hide Holds, Rest, Fresh, AppFilters, IpFilters;
    assert Main in e'.sublayers <==> Main in e'.sublayers - {Ipv6};
    assert Main in y.engine.sublayers <==> Main in y.engine.sublayers - {Ipv6};
    if IsOn(y.engine) {
      var base :| M.SplitGroups(y.engine, y.split, y.base, base);
      HoldsOfRest(y.engine, e', Ipv6, Main, base + y.split.idsApps + y.split.idsIps,
                  y.base + AppFilters(y.split) + IpFilters(y.split));
      assert M.SplitGroups(e', y.split, y.base, base);
    } else {
      HoldsOfRest(y.engine, e', Ipv6, Main, [], []);
    }
  }

  lemma StepKeeps(j: Joint, env: Env, ev: Event)
    requires Inv(j, env) && RebuildsSucceed(ev)
    ensures Inv(Step(j, env, ev), env)
  {
    hide V6.Step, MainRun.Step, Rest, OtherFilters, M.SplitGroups, V6.HoldsWith, Fresh, Holds, V6.RebuildsSucceed;
    match ev
    case OnIpv6(v6) =>
      V6.StepKeeps(j.engine, j.v6, env.taps, v6);
      MainUndisturbed(MainSys(j, env), Step(j, env, ev).engine);
    case OnMain(main) =>
      var y := MainSys(j, env);
      M.StepKeeps(y, env, main);
      M.BaseFollows(y, env, main);
      assert MainSys(Step(j, env, ev), env) == MainRun.Step(y, env, main);
      Ipv6Undisturbed(j.engine, Step(j, env, ev).engine, j.v6, env.taps);
  }

  lemma {:induction false} RunKeeps(j: Joint, env: Env, events: seq<Event>)
    requires Inv(j, env) && forall ev :: ev in events ==> RebuildsSucceed(ev)
    ensures Inv(Run(j, env, events), env)
    decreases |events|
  {
    hide Inv, Step, RebuildsSucceed;
    if events != [] {
      StepKeeps(j, env, events[0]);
      RunKeeps(Step(j, env, events[0]), env, events[1..]);
    }
  }

  // --- Verdicts ---

  lemma MainSublayerDecides(e: Engine, s: Split, cfg: Config, env: Env, vpnApps: seq<nat>, p: Packet, action: Action)
    requires M.Inv(Sys(e, s, OtherFilters(cfg, env, vpnApps))) && IsOn(e)
    ensures SublayerDecides(e, Main, p, action) <==> Verdict(cfg, env, vpnApps, s, p) == Some(action)
  {
    hide Holds, Decides, AddsDecide, ExpandAll, Before, After, AppAdds, IpAdds, SublayerDecides, Fresh, Verdict;
    var fb := OtherFilters(cfg, env, vpnApps);
    var base :| M.SplitGroups(e, s, fb, base);
    MainDecides(cfg, env, vpnApps, s, p, action);
    DecidesByAdds(Main, MainAdds(cfg, env, vpnApps, s), p, action);
    ExpandAppend(Main, Before(cfg, env), After(cfg, env, vpnApps));
    ExpandAppend(Main, Before(cfg, env) + After(cfg, env, vpnApps), AppAdds(s));
    ExpandAppend(Main, Before(cfg, env) + After(cfg, env, vpnApps) + AppAdds(s), IpAdds(s));
    HoldsDecides(e, Main, base + s.idsApps + s.idsIps, fb + AppFilters(s) + IpFilters(s), p, action);
  }

  /** In every interleaved run in which IPv6 rebuilds succeed, each sublayer decides every packet of both families by
      its closed form, from the configuration of the last on() and the settings of the moment; turned off, the main
      sublayer decides nothing. */
  lemma RunDecidesEveryPacket(j: Joint, env: Env, events: seq<Event>, p: Packet, action: Action)
    requires Inv(j, env) && forall ev :: ev in events ==> RebuildsSucceed(ev)
    ensures var z := Run(j, env, events);
      && (IsOn(z.engine) ==>
            var verdict := Verdict(z.cfg, env, z.vpnApps, z.split, p);
            (SublayerDecides(z.engine, Main, p, action) <==> verdict == Some(action)))
      && (!IsOn(z.engine) ==> !SublayerDecides(z.engine, Main, p, action))
      && (z.v6.installed ==>
            (SublayerDecides(z.engine, Ipv6, p, action) <==> V.Verdict(z.v6, env.taps, p) == Some(action)))
  {
    hide Run, V6.HoldsWith, M.SplitGroups, SublayerDecides, OtherFilters, Fresh, Holds, Verdict, V.Verdict;
    RunKeeps(j, env, events);
    var z := Run(j, env, events);
    if IsOn(z.engine) {
      MainSublayerDecides(z.engine, z.split, z.cfg, env, z.vpnApps, p, action);
    } else {
      HoldsDecides(z.engine, Main, [], [], p, action);
    }
    if z.v6.installed {
      V.SublayerDecidesBy(z.engine, z.v6, env.taps, p, action);
    }
  }

  /** The packet goes to a unique-local or multicast address, and is neither neighbour or listener discovery nor
      DHCPv6. */
  predicate LanPacket(p: Packet)
  {
    IsV6Layer(p.layer) && Local6(p.remote) && !Discovery(p) && p.localPort != 546 && p.localPort != 547
  }

  /** In every such run, while both sublayers stand with the same flags, a local IPv6 packet passes on a tunnel adapter
      exactly for custom configurations, and off the tunnel exactly with local traffic allowed or a custom
      configuration, and is blocked otherwise, for every mode, application list and destination list either controller
      was given. */
  lemma RunDecidesLanTraffic(j: Joint, env: Env, events: seq<Event>, p: Packet)
    requires Inv(j, env) && forall ev :: ev in events ==> RebuildsSucceed(ev)
    requires LanPacket(p)
    ensures var z := Run(j, env, events);
      IsOn(z.engine) && z.v6.installed && z.v6.allowLan == z.cfg.allowLan && z.v6.custom == z.cfg.custom ==>
      var passes := if OnTunnel(env.taps, p) then z.cfg.custom else z.cfg.allowLan || z.cfg.custom;
      (Passes(z.engine, p) <==> passes) && (Blocked(z.engine, p) <==> !passes)
  {
    hide Inv, Run, SublayerDecides, OnTunnel, OnV6Tunnel, RebuildsSucceed;
    RunDecidesEveryPacket(j, env, events, p, Permit);
    RunDecidesEveryPacket(j, env, events, p, Block);
  }

  /** In every such run, with the main firewall on, an IPv4 or IPv6 packet off every tunnel adapter to an address that
      is neither local, loopback, link-local, reserved nor listed is blocked, unless it is a DHCP or discovery packet,
      goes to the server from a permitted program, or is let out by split tunnelling. */
  lemma RunLeaksNothing(j: Joint, env: Env, events: seq<Event>, p: Packet)
    requires Inv(j, env) && forall ev :: ev in events ==> RebuildsSucceed(ev)
    requires !OnTunnel(env.taps, p)
    ensures var z := Run(j, env, events);
      var exempt :=
        || SplitCovers(z.split, p)
        || (if IsV6Layer(p.layer) then
              || p.remote == 1 || LinkLocal6(p.remote) || Discovery(p) || Local6(p.remote)
              || p.localPort == 546 || p.localPort == 547
            else
              || Loopback4(p.remote) || Local4(p.remote) || OwnAddress(env.taps, p) || p.localPort == 67
              || p.localPort == 68 || InRanges(false, z.cfg.ips, p.remote) || ToServer(z.cfg, env, z.vpnApps, p));
      IsOn(z.engine) && !exempt ==> Blocked(z.engine, p)
  {
    hide Inv, Run, SublayerDecides, InRanges, RebuildsSucceed;
    RunDecidesEveryPacket(j, env, events, p, Block);
  }

  /** A run can start with neither sublayer present. */
  lemma InvInitially(e: Engine, cfg: Config, env: Env)
    requires Fresh(e) && Main !in e.sublayers && Holds(e, Main, [], [])
    ensures Inv(Joint(e, V6.INITIAL, M.INITIAL, cfg, []), env)
  {
    hide Holds, OtherFilters, Fresh;
  }
}
