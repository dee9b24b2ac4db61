/** The main firewall's methods against the steps of MainRun. */
module MainFirewalls {
  import opened Text
  import opened Wfp
  import opened WfpCalls
  import opened MainRun
  import MainInv

  lemma AllTapAddsFrom(taps: seq<Tap>, cfg: Config, i: nat)
    requires i <= |taps|
    ensures i == |taps| ==> AllTapAdds(taps[i..], cfg) == []
    ensures i < |taps| ==> AllTapAdds(taps[i..], cfg) == TapAdds(taps[i], cfg) + AllTapAdds(taps[i + 1..], cfg)
    ensures taps[0..] == taps
  {
    hide TapAdds;
    if i < |taps| {
      assert taps[i..][1..] == taps[i + 1..];
    }
  }

  lemma AddressAddsFrom(ips: seq<IpRange>, i: nat)
    requires i <= |ips|
    ensures i == |ips| ==> AddressAdds(ips[i..]) == []
    ensures i < |ips| ==> AddressAdds(ips[i..]) == [RangesOf(false, Permit, 2, [ips[i]])] + AddressAdds(ips[i + 1..])
    ensures ips[0..] == ips
  {
    if i < |ips| {
      assert ips[i..][1..] == ips[i + 1..];
    }
  }

  /** The calls for one tunnel adapter. */
  method AddTapFilters(e: Engine, tap: Tap, cfg: Config, ghost e0: Engine, ghost done: seq<Add>) returns (e': Engine)
    requires e == AddFilters(e0, ExpandAll(Main, done))
    ensures e' == AddFilters(e0, ExpandAll(Main, done + TapAdds(tap, cfg)))
  {
    hide AddFilters, ExpandAll, PRIVATE, OnTap;
    var reserved := OnTap(false, Permit, 8, tap, Some([RESERVED]));
    e' := AddNext(e, Main, reserved, e0, done);
    ghost var added := [reserved];
    if !cfg.custom {
      if tap.addresses != [] {
        var own := Add(false, Permit, 8, None, Some(tap.addresses), 0, None, false);
        e' := AddNext(e', Main, own, e0, done + added);
        assert done + added + [own] == done + (added + [own]);
        added := added + [own];
      }
      assert added == [reserved] + OwnAddresses(tap);
      if cfg.allowLan {
        e' := AddInOrder(e', Main, CarveOut(tap), e0, done + added);
        assert done + added + CarveOut(tap) == done + (added + CarveOut(tap));
        added := added + CarveOut(tap);
      }
    }
    assert added == [reserved] +
      (if cfg.custom then [] else OwnAddresses(tap) + if cfg.allowLan then CarveOut(tap) else []);
    var tunnel := OnTap(false, Permit, 1, tap, None);
    e' := AddNext(e', Main, tunnel, e0, done + added);
    assert done + added + [tunnel] == done + (added + [tunnel]);
    added := added + [tunnel];
    if tap.hasV6 {
      var tunnel6 := OnTap(true, Permit, 1, tap, None);
      e' := AddNext(e', Main, tunnel6, e0, done + added);
      assert done + added + [tunnel6] == done + (added + [tunnel6]);
      added := added + [tunnel6];
    }
    assert added == TapAdds(tap, cfg);
  }

  method AddBefore(e: Engine, cfg: Config, env: Env) returns (e': Engine)
    ensures e' == AddFilters(e, ExpandAll(Main, Before(cfg, env)))
  {
    hide AddFilters, ExpandAll, AllTapAdds, TapAdds;
    NothingYet(e);
    var blocks := [AllOf(false, Block, 0), AllOf(true, Block, 0)];
    e' := AddInOrder(e, Main, blocks, e, []);
    assert [] + blocks == blocks;
    ghost var done := blocks;
    var i := 0;
    AllTapAddsFrom(env.taps, cfg, 0);
    while i < |env.taps|
      invariant 0 <= i <= |env.taps|
      invariant Before(cfg, env) == done + AllTapAdds(env.taps[i..], cfg)
      invariant e' == AddFilters(e, ExpandAll(Main, done))
    {
      AllTapAddsFrom(env.taps, cfg, i);
      e' := AddTapFilters(e', env.taps[i], cfg, e, done);
      done := done + TapAdds(env.taps[i], cfg);
      i := i + 1;
    }
    AllTapAddsFrom(env.taps, cfg, i);
    assert done == Before(cfg, env);
  }

  lemma NothingYet(e: Engine)
    ensures AddFilters(e, ExpandAll(Main, [])) == e
  {
  }

  method AddAfter(e: Engine, cfg: Config, env: Env, vpnApps: seq<nat>) returns (e': Engine)
    ensures e' == AddFilters(e, ExpandAll(Main, After(cfg, env, vpnApps)))
  {
    hide AddFilters, ExpandAll, AddressAdds, FixedAdds, ConnectingAdd;
    NothingYet(e);
    e' := AddNext(e, Main, ConnectingAdd(cfg, env, vpnApps), e, []);
    ghost var done := [ConnectingAdd(cfg, env, vpnApps)];
    assert [] + done == done;
    var i := 0;
    AddressAddsFrom(cfg.ips, 0);
    while i < |cfg.ips|
      invariant 0 <= i <= |cfg.ips|
      invariant [ConnectingAdd(cfg, env, vpnApps)] + AddressAdds(cfg.ips) == done + AddressAdds(cfg.ips[i..])
      invariant e' == AddFilters(e, ExpandAll(Main, done))
    {
      AddressAddsFrom(cfg.ips, i);
      var permit := RangesOf(false, Permit, 2, [cfg.ips[i]]);
      e' := AddNext(e', Main, permit, e, done);
      done := done + [permit];
      i := i + 1;
    }
    AddressAddsFrom(cfg.ips, i);
    assert done == [ConnectingAdd(cfg, env, vpnApps)] + AddressAdds(cfg.ips);
    e' := AddInOrder(e', Main, FixedAdds(cfg), e, done);
  }

  /** Two calls, one for each family, recording their identifiers. */
  method AddBothFamilies(e: Engine, first: Add, second: Add, ids: seq<nat>) returns (e': Engine, ids': seq<nat>)
    requires first.Add? && second.Add?
    ensures e' == AddFilters(e, ExpandAll(Main, [first, second]))
    ensures ids' == ids + Ids(e.nextId, |ExpandAll(Main, [first, second])|)
  {
    hide AddFilters, ExpandAll, Expand, Ids, Landing, CallSucceeds;
    var ok;
    LandingAll(Main, first);
    LandingAll(Main, second);
    e', ids', ok := AddFilterCall(e, Main, first, ids, [true, true]);
    AddFiltersAppend(e, Expand(Main, first), Expand(Main, second));
    e', ids', ok := AddFilterCall(e', Main, second, ids', [true, true]);
    assert [first, second] == [first] + [second];
    ExpandAppend(Main, [first], [second]);
    ExpandOne(Main, first);
    ExpandOne(Main, second);
    IdsAppend(e.nextId, |Expand(Main, first)|, |Expand(Main, second)|);
  }

  lemma IdsAppend(from: nat, n: nat, m: nat)
    ensures Ids(from, n + m) == Ids(from, n) + Ids(from + n, m)
  {
  }

  class FirewallFilter {
    const fwpm: Fwpm
    const env: Env

    var isSplitTunnelingEnabled: bool
    var isSplitTunnelingExclusiveMode: bool
    var appsIds: seq<nat>
    var vpnAppsIds: seq<nat>
    var splitRoutingIps: seq<IpRange>
    var filterIdsApps: seq<nat>
    var filterIdsSplitRoutingIps: seq<nat>
    /** What the last On added besides the split-tunnelling filters. */
    ghost var base: seq<Filter>

    function Settings(): Split
      reads this
    {
      Split(isSplitTunnelingEnabled, isSplitTunnelingExclusiveMode, appsIds, vpnAppsIds, splitRoutingIps, filterIdsApps,
            filterIdsSplitRoutingIps)
    }

    /** The settings without the identifiers of the filters added for them. */
    function Asked(): Split
      reads this
    {
      Forget(Settings())
    }

    ghost function Abstract(): Sys
      reads this, fwpm
    {
      Sys(fwpm.engine, Settings(), base)
    }

    constructor (fwpm: Fwpm, env: Env)
      ensures this.fwpm == fwpm && this.env == env && Settings() == Split(false, false, [], [], [], [], [])
    {
      this.fwpm, this.env := fwpm, env;
      isSplitTunnelingEnabled, isSplitTunnelingExclusiveMode := false, false;
      appsIds, vpnAppsIds, splitRoutingIps := [], [], [];
      filterIdsApps, filterIdsSplitRoutingIps := [], [];
    }

    predicate CurrentStatus()
      reads this, fwpm
    {
      Main in fwpm.engine.sublayers
    }

    method AddPermitFilterForAppsIds()
      requires isSplitTunnelingEnabled
      modifies this`filterIdsApps, fwpm`engine
      ensures (fwpm.engine, Settings()) == AddApps(old(fwpm.engine), old(Settings()))
    {
      hide AddFilters, ExpandAll, Ids;
      NothingRecorded(fwpm.engine, filterIdsApps);
      var e, ids := fwpm.engine, filterIdsApps;
      if isSplitTunnelingExclusiveMode {
        if appsIds != [] {
          e, ids := AddBothFamilies(e, SplitPermit(false, None, Some(appsIds)), SplitPermit(true, None, Some(appsIds)),
                                    ids);
        }
      } else {
        e, ids := AddBothFamilies(e, SplitPermit(false, None, None), SplitPermit(true, None, None), ids);
      }
      fwpm.engine, filterIdsApps := e, ids;
    }

    method AddPermitFilterForSplitRoutingWhitelistIps()
      requires isSplitTunnelingEnabled
      modifies this`filterIdsSplitRoutingIps, fwpm`engine
      ensures (fwpm.engine, Settings()) == AddIps(old(fwpm.engine), old(Settings()))
    {
      hide AddFilters, ExpandAll, Ids;
      NothingRecorded(fwpm.engine, filterIdsSplitRoutingIps);
      if !isSplitTunnelingExclusiveMode || splitRoutingIps == [] {
        return;
      }
      var e, ids := AddBothFamilies(fwpm.engine, SplitPermit(false, Some(splitRoutingIps), None),
                                    SplitPermit(true, Some(splitRoutingIps), None), filterIdsSplitRoutingIps);
      fwpm.engine, filterIdsSplitRoutingIps := e, ids;
    }

    method RemoveAppsSplitTunnelingFilter()
      modifies this`filterIdsApps, fwpm`engine
      ensures (fwpm.engine, Settings()) == RemoveApps(old(fwpm.engine), old(Settings()))
    {
      hide DropIds;
      fwpm.engine := RemoveById(fwpm.engine, filterIdsApps);
      filterIdsApps := [];
    }

    method RemoveIpsSplitTunnelingFilter()
      modifies this`filterIdsSplitRoutingIps, fwpm`engine
      ensures (fwpm.engine, Settings()) == RemoveIps(old(fwpm.engine), old(Settings()))
    {
      hide DropIds;
      fwpm.engine := RemoveById(fwpm.engine, filterIdsSplitRoutingIps);
      filterIdsSplitRoutingIps := [];
    }

    /** Installs the firewall from scratch; `subOk` is whether the sublayer can be added. */
    method TurnOnFirewall(cfg: Config, subOk: bool)
      modifies this, fwpm
      ensures Abstract() == Step(old(Abstract()), env, On(cfg, subOk))
      ensures CurrentStatus() == subOk && Asked() == old(Asked())
      ensures old(MainInv.Inv(Abstract())) ==> MainInv.Inv(Abstract())
    {
      hide MainInv.Inv;
      KeepsInv(Abstract(), env, Event.On(cfg, subOk));
      OnIsOn(Abstract(), env, cfg, subOk);
      hide AddFilters, ExpandAll, Before, After, AppFilters, IpFilters, Ids, DropSublayer, AddApps, AddIps;
      if CurrentStatus() {
        fwpm.engine := DropSublayer(fwpm.engine, Main);
        filterIdsApps := [];
        filterIdsSplitRoutingIps := [];
      }
      ghost var s := Settings();
      if subOk {
        var e := fwpm.engine.(sublayers := fwpm.engine.sublayers + {Main});
        e := AddBefore(e, cfg, env);
        fwpm.engine := e;
        if isSplitTunnelingEnabled {
          AddPermitFilterForAppsIds();
          AddPermitFilterForSplitRoutingWhitelistIps();
        } else {
          DisabledAddsNothing(fwpm.engine, Settings());
        }
        AppsKeepVpn(e, s);
        e := AddAfter(fwpm.engine, cfg, env, vpnAppsIds);
        fwpm.engine := e;
        base := OtherFilters(cfg, env, vpnAppsIds);
      }
    }

    method TurnOffFirewall()
      modifies this, fwpm
      ensures Abstract() == Step(old(Abstract()), env, Off)
      ensures !CurrentStatus() && Asked() == old(Asked())
      ensures old(MainInv.Inv(Abstract())) ==> MainInv.Inv(Abstract())
    {
      hide MainInv.Inv;
      KeepsInv(Abstract(), env, Event.Off);
      OffIsOff(fwpm.engine);
      hide DropSublayer;
      if CurrentStatus() {
        fwpm.engine := DropSublayer(fwpm.engine, Main);
      }
      filterIdsApps := [];
      filterIdsSplitRoutingIps := [];
    }

    method SetSplitTunnelingEnabled(isExclusiveMode: bool)
      modifies this, fwpm
      ensures Abstract() == Step(old(Abstract()), env, SetEnabled(isExclusiveMode))
      ensures Asked() == old(Asked()).(enabled := true, exclusive := isExclusiveMode)
      ensures old(MainInv.Inv(Abstract())) ==> MainInv.Inv(Abstract())
    {
      hide MainInv.Inv;
      KeepsInv(Abstract(), env, SetEnabled(isExclusiveMode));
      hide RemoveApps, RemoveIps, AddApps, AddIps;
      RemoveAppsSplitTunnelingFilter();
      RemoveIpsSplitTunnelingFilter();
      isSplitTunnelingEnabled := true;
      isSplitTunnelingExclusiveMode := isExclusiveMode;
      if CurrentStatus() {
        AddsKeepEnabled(fwpm.engine, Settings());
        AddPermitFilterForAppsIds();
        AddPermitFilterForSplitRoutingWhitelistIps();
      }
    }

    method SetSplitTunnelingDisabled()
      modifies this, fwpm
      ensures Abstract() == Step(old(Abstract()), env, SetDisabled)
      ensures Asked() == old(Asked()).(enabled := false)
      ensures old(MainInv.Inv(Abstract())) ==> MainInv.Inv(Abstract())
    {
      hide MainInv.Inv;
      KeepsInv(Abstract(), env, SetDisabled);
      hide RemoveApps, RemoveIps;
      RemoveAppsSplitTunnelingFilter();
      RemoveIpsSplitTunnelingFilter();
      isSplitTunnelingEnabled := false;
    }

    /** The refresh the two application setters share. */
    method RefreshAppFilters()
      modifies this`filterIdsApps, fwpm`engine
      ensures Abstract() == RefreshApps(old(Abstract()), old(Settings()))
    {
      hide AddApps, DropIds;
      if isSplitTunnelingEnabled && CurrentStatus() {
        RemoveAppsSplitTunnelingFilter();
        AddPermitFilterForAppsIds();
      }
    }

    method SetVpnAppsIds(apps: seq<nat>)
      modifies this, fwpm
      ensures Abstract() == Step(old(Abstract()), env, SetVpnApps(apps))
      ensures Asked() == old(Asked()).(vpnApps := apps)
      ensures old(MainInv.Inv(Abstract())) ==> MainInv.Inv(Abstract())
    {
      hide MainInv.Inv;
      KeepsInv(Abstract(), env, SetVpnApps(apps));
      hide RefreshApps;
      if vpnAppsIds == apps {
        return;
      }
      vpnAppsIds := apps;
      RefreshAppFilters();
      RefreshIgnoresOldLists(old(Abstract()), old(Settings()).(vpnApps := apps));
    }

    method SetSplitTunnelingAppsIds(apps: seq<nat>)
      modifies this, fwpm
      ensures Abstract() == Step(old(Abstract()), env, SetApps(apps))
      ensures Asked() == old(Asked()).(apps := apps)
      ensures old(MainInv.Inv(Abstract())) ==> MainInv.Inv(Abstract())
    {
      hide MainInv.Inv;
      KeepsInv(Abstract(), env, SetApps(apps));
      hide RefreshApps;
      if appsIds == apps {
        return;
      }
      appsIds := apps;
      RefreshAppFilters();
      RefreshIgnoresOldLists(old(Abstract()), old(Settings()).(apps := apps));
    }

    method SetSplitTunnelingWhitelistIps(ips: seq<IpRange>)
      modifies this, fwpm
      ensures Abstract() == Step(old(Abstract()), env, SetIps(ips))
      ensures Asked() == old(Asked()).(ips := ips)
      ensures old(MainInv.Inv(Abstract())) ==> MainInv.Inv(Abstract())
    {
      hide MainInv.Inv;
      KeepsInv(Abstract(), env, SetIps(ips));
      hide AddIps, DropIds;
      if splitRoutingIps == ips {
        return;
      }
      splitRoutingIps := ips;
      if isSplitTunnelingEnabled && CurrentStatus() {
        RemoveIpsSplitTunnelingFilter();
        AddPermitFilterForSplitRoutingWhitelistIps();
      }
    }
  }

  lemma OffIsOff(e: Engine)
    ensures !IsOn(TurnOff(e))
  {
  }

  lemma {:induction false} AddKeepsSublayers(e: Engine, fs: seq<Filter>)
    ensures AddFilters(e, fs).sublayers == e.sublayers
    decreases |fs|
  {
    if fs != [] {
      AddKeepsSublayers(AddFilter(e, fs[0]), fs[1..]);
    }
  }

  lemma OnIsOn(y: Sys, env: Env, cfg: Config, subOk: bool)
    ensures IsOn(StepOn(y, env, cfg, subOk).engine) == subOk
  {
    hide AddFilters, ExpandAll, Before, After, AppFilters, IpFilters, Ids, OtherFilters;
    OffIsOff(y.engine);
    var e := TurnOff(y.engine);
    var s := if IsOn(y.engine) then Forget(y.split) else y.split;
    var e0 := e.(sublayers := e.sublayers + {Main});
    AddKeepsSublayers(e0, ExpandAll(Main, Before(cfg, env)));
    var e1 := AddFilters(e0, ExpandAll(Main, Before(cfg, env)));
    AddKeepsSublayers(e1, AppFilters(s));
    var (e2, s2) := AddApps(e1, s);
    AddKeepsSublayers(e2, IpFilters(s2));
    var (e3, s3) := AddIps(e2, s2);
    AddKeepsSublayers(e3, ExpandAll(Main, After(cfg, env, s.vpnApps)));
  }

  lemma NothingRecorded(e: Engine, ids: seq<nat>)
    ensures AddFilters(e, ExpandAll(Main, [])) == e && ids + Ids(e.nextId, |ExpandAll(Main, [])|) == ids
  {
  }

  lemma DisabledAddsNothing(e: Engine, s: Split)
    requires !s.enabled
    ensures AddApps(e, s) == (e, s) && AddIps(e, s) == (e, s)
  {
    NothingRecorded(e, s.idsApps);
    NothingRecorded(e, s.idsIps);
  }

  lemma AppsKeepVpn(e: Engine, s: Split)
    ensures AddApps(e, s).1.vpnApps == s.vpnApps
    ensures AddIps(AddApps(e, s).0, AddApps(e, s).1).1.vpnApps == s.vpnApps
    ensures AddApps(e, s).1.enabled == s.enabled
  {
  }

  lemma AddsKeepEnabled(e: Engine, s: Split)
    ensures AddApps(e, s).1.enabled == s.enabled
  {
  }

  /** The refresh looks only at the engine and the base of the system it starts from. */
  lemma RefreshIgnoresOldLists(y: Sys, s: Split)
    ensures RefreshApps(y, s) == RefreshApps(y.(split := s), s)
  {
  }

  lemma KeepsInv(y: Sys, env: Env, ev: Event)
    ensures MainInv.Inv(y) ==> MainInv.Inv(Step(y, env, ev))
  {
    hide MainInv.Inv, Step;
    if MainInv.Inv(y) {
      MainInv.StepKeeps(y, env, ev);
    }
  }
}
