/** The IPv6 firewall's methods against the steps of Ipv6Run. */
module Ipv6Firewalls {
  import opened Text
  import opened Wfp
  import opened WfpCalls
  import opened Ipv6Run

  lemma TunnelPermitsFrom(taps: seq<Tap>, i: nat, weight: nat)
    requires i <= |taps|
    ensures i == |taps| ==> TunnelPermits(taps[i..], weight) == []
    ensures i < |taps| ==> (
      TunnelPermits(taps[i..], weight) ==
      (if taps[i].hasV6 then [Add(true, Permit, weight, Some(taps[i].luid), None, 0, None, true)] else []) +
      TunnelPermits(taps[i + 1..], weight))
    ensures taps[0..] == taps
  {
    if i < |taps| {
      assert taps[i..][1..] == taps[i + 1..];
    }
  }

  method AddTunnelPermits(e: Engine, taps: seq<Tap>, weight: nat, ghost e0: Engine, ghost done: seq<Add>)
    returns (e': Engine)
    requires e == AddFilters(e0, ExpandAll(Ipv6, done))
    ensures e' == AddFilters(e0, ExpandAll(Ipv6, done + TunnelPermits(taps, weight)))
  {
    hide AddFilters, ExpandAll, TunnelPermits;
    e' := e;
    ghost var added: seq<Add> := [];
    var i := 0;
    TunnelPermitsFrom(taps, 0, weight);
    assert done + added == done;
    while i < |taps|
      invariant 0 <= i <= |taps|
      invariant TunnelPermits(taps, weight) == added + TunnelPermits(taps[i..], weight)
      invariant e' == AddFilters(e0, ExpandAll(Ipv6, done + added))
    {
      TunnelPermitsFrom(taps, i, weight);
      var tap := taps[i];
      i := i + 1;
      if !tap.hasV6 {
        continue;
      }
      var permit := Add(true, Permit, weight, Some(tap.luid), None, 0, None, true);
      e' := AddNext(e', Ipv6, permit, e0, done + added);
      assert done + added + [permit] == done + (added + [permit]);
      added := added + [permit];
    }
    TunnelPermitsFrom(taps, i, weight);
    assert added + [] == added;
  }

  /** The split-tunnelling calls, after the calls `done`. */
  method AddModeFilters(e: Engine, s: State, taps: seq<Tap>, ghost e0: Engine, ghost done: seq<Add>)
    returns (e': Engine)
    requires e == AddFilters(e0, ExpandAll(Ipv6, done))
    ensures e' == AddFilters(e0, ExpandAll(Ipv6, done + ModeAdds(s, taps)))
  {
    hide AddFilters, ExpandAll, TunnelPermits;
    e' := e;
    ghost var added: seq<Add> := [];
    assert done + added == done;
    if s.mode == Inclusive {
      e' := AddNext(e', Ipv6, All(Permit, 2), e0, done);
      added := [All(Permit, 2)];
      if s.apps != [] {
        e' := AddNext(e', Ipv6, ForApps(Block, 3, s.apps), e0, done + added);
        assert done + added + [ForApps(Block, 3, s.apps)] == done + (added + [ForApps(Block, 3, s.apps)]);
        added := added + [ForApps(Block, 3, s.apps)];
        e' := AddTunnelPermits(e', taps, 4, e0, done + added);
        assert done + added + TunnelPermits(taps, 4) == done + (added + TunnelPermits(taps, 4));
        added := added + TunnelPermits(taps, 4);
      }
    }
    if s.mode == Exclusive && s.apps != [] {
      e' := AddNext(e', Ipv6, ForApps(Permit, 2, s.apps), e0, done);
      added := [ForApps(Permit, 2, s.apps)];
    }
    assert added == ModeAdds(s, taps);
  }

  /** The filters of a build before the destination filters. */
  method AddBase(e: Engine, s: State, taps: seq<Tap>) returns (e': Engine)
    ensures e' == AddFilters(e, BaseFilters(s, taps))
  {
    hide AddFilters, ExpandAll, TunnelPermits, ModeAdds;
    Nothing(e);
    e' := AddNext(e, Ipv6, All(Block, 0), e, []);
    ghost var done := [All(Block, 0)];
    assert [] + done == done;
    e' := AddTunnelPermits(e', taps, 0, e, done);
    done := done + TunnelPermits(taps, 0);
    e' := AddInOrder(e', Ipv6, Essentials(), e, done);
    done := done + Essentials();
    if s.allowLan || s.custom {
      var lan := To(Permit, 4, [UNIQUE_LOCAL, MULTICAST]);
      e' := AddNext(e', Ipv6, lan, e, done);
      assert [lan] == LanAdds(s);
    } else {
      assert done + LanAdds(s) == done;
    }
    done := done + LanAdds(s);
    e' := AddModeFilters(e', s, taps, e, done);
  }

  lemma Nothing(e: Engine)
    ensures AddFilters(e, ExpandAll(Ipv6, [])) == e
  {
  }

  /** The destination filters, each layer accepted or not on its own. */
  method AddDestinations(e: Engine, s: State, accepts: seq<bool>) returns (e': Engine, ids: seq<nat>, ok: bool)
    requires |accepts| == 2
    ensures ok == UpdateSucceeds(s, accepts[0], accepts[1])
    ensures var landed := if s.mode == Disabled || s.ips == [] then [] else Landing(Ipv6, DestAdd(s), accepts, 2);
      e' == AddFilters(e, landed) && ids == Ids(e.nextId, |landed|)
    ensures ok ==> e' == AddFilters(e, DestFilters(s)) && ids == Ids(e.nextId, |DestFilters(s)|)
  {
    hide AddFilters, Expand, Ids, Landing, Skipped;
    NothingAdded(e);
    if s.mode == Disabled || s.ips == [] {
      return e, [], true;
    }
    e', ids, ok := AddFilterCall(e, Ipv6, DestAdd(s), [], accepts);
    assert accepts == [accepts[0], accepts[1]];
    if ok {
      LandsWhole(s, accepts);
    }
  }

  lemma LandsWhole(s: State, accepts: seq<bool>)
    requires |accepts| == 2 && CallSucceeds(DestAdd(s), accepts)
    ensures Landing(Ipv6, DestAdd(s), accepts, 2) == Expand(Ipv6, DestAdd(s))
  {
    hide DestAdd, FilterAt;
    if !Skipped(DestAdd(s)) {
      assert accepts == [true, true];
    }
    LandingAll(Ipv6, DestAdd(s));
  }

  class Ipv6Firewall {
    const fwpm: Fwpm
    const taps: seq<Tap>

    var isDisabled: bool
    var allowLanTraffic: bool
    var isCustomConfig: bool
    var splitTunnelMode: Mode
    var splitTunnelAppsIds: seq<nat>
    var whitelistIps: seq<IpRange>
    var whitelistFilterIds: seq<nat>

    function Abstract(): State
      reads this
    {
      State(isDisabled, allowLanTraffic, isCustomConfig, splitTunnelMode, splitTunnelAppsIds, whitelistIps,
            whitelistFilterIds)
    }

    constructor (fwpm: Fwpm, taps: seq<Tap>)
      ensures this.fwpm == fwpm && this.taps == taps && Abstract() == INITIAL
    {
      this.fwpm, this.taps := fwpm, taps;
      isDisabled, allowLanTraffic, isCustomConfig, splitTunnelMode := false, false, false, Disabled;
      splitTunnelAppsIds, whitelistIps, whitelistFilterIds := [], [], [];
    }

    /** Lifts the IPv6 block. */
    method EnableIPv6()
      modifies this, fwpm
      ensures (fwpm.engine, Abstract()) == Step(old(fwpm.engine), old(Abstract()), taps, Enable)
      ensures !isDisabled && Abstract() == old(Abstract()).(installed := false, ids := whitelistFilterIds)
      ensures old(Inv(fwpm.engine, Abstract(), taps)) ==> Inv(fwpm.engine, Abstract(), taps)
    {
      hide Inv;
      if Inv(fwpm.engine, Abstract(), taps) {
        StepKeeps(fwpm.engine, Abstract(), taps, Event.Enable);
      }
      hide DropSublayer;
      if !isDisabled {
        return;
      }
      fwpm.engine := DropSublayer(fwpm.engine, Ipv6);
      whitelistFilterIds := [];
      isDisabled := false;
    }

    /** Installs the IPv6 block from scratch; `subOk` is whether the sublayer can be added. */
    method DisableIPv6(allowLan: bool, custom: bool, subOk: bool)
      modifies this, fwpm
      ensures (fwpm.engine, Abstract()) ==
              Step(old(fwpm.engine), old(Abstract()), taps, Disable(allowLan, custom, subOk))
      ensures isDisabled == (old(isDisabled) || subOk) && allowLanTraffic == allowLan && isCustomConfig == custom
      ensures splitTunnelMode == old(splitTunnelMode) && splitTunnelAppsIds == old(splitTunnelAppsIds)
      ensures whitelistIps == old(whitelistIps)
      ensures old(Inv(fwpm.engine, Abstract(), taps)) && subOk ==> Inv(fwpm.engine, Abstract(), taps)
    {
      hide Inv;
      if Inv(fwpm.engine, Abstract(), taps) && subOk {
        StepKeeps(fwpm.engine, Abstract(), taps, Event.Disable(allowLan, custom, subOk));
      }
      hide DropSublayer, AddFilters, BaseFilters, DestFilters, Ids, UpdateSucceeds;
      allowLanTraffic := allowLan;
      isCustomConfig := custom;
      fwpm.BeginTransaction();
      var cleared := DropSublayer(fwpm.engine, Ipv6);
      fwpm.engine := cleared;
      whitelistFilterIds := [];
      if !subOk {
        fwpm.AbortTransaction();
        return;
      }
      var e := cleared.(sublayers := cleared.sublayers + {Ipv6});
      var s := Abstract();
      e := AddBase(e, s, taps);
      var ids, ok;
      AcceptedUpdateSucceeds(s);
      ghost var was := old(Abstract()).(allowLan := allowLan, custom := custom);
      SameFilters(s, was, taps);
      e, ids, ok := AddDestinations(e, s, [true, true]);
      fwpm.engine, whitelistFilterIds := e, ids;
      isDisabled := true;
    }

    /** A new mode or app list; rebuilds if the block is installed. */
    method SetSplitTunnelingState(mode: Mode, apps: seq<nat>, subOk: bool)
      modifies this, fwpm
      ensures (fwpm.engine, Abstract()) == Step(old(fwpm.engine), old(Abstract()), taps, SetMode(mode, apps, subOk))
      ensures splitTunnelMode == mode && splitTunnelAppsIds == apps
      ensures Abstract() == old(Abstract()).(mode := mode, apps := apps, ids := whitelistFilterIds)
      ensures old(Inv(fwpm.engine, Abstract(), taps)) && subOk ==> Inv(fwpm.engine, Abstract(), taps)
    {
      hide Inv;
      if Inv(fwpm.engine, Abstract(), taps) && subOk {
        StepKeeps(fwpm.engine, Abstract(), taps, SetMode(mode, apps, subOk));
      }
      hide Rebuild;
      if mode == splitTunnelMode && apps == splitTunnelAppsIds {
        return;
      }
      splitTunnelMode := mode;
      splitTunnelAppsIds := apps;
      if isDisabled {
        DisableIPv6(allowLanTraffic, isCustomConfig, subOk);
      }
    }

    /** A new destination list: replaces only the destination filters, restoring everything if an add fails. */
    method SetSplitTunnelingWhitelistIps(ips: seq<IpRange>, okConnect: bool, okAccept: bool)
      modifies this, fwpm
      ensures (fwpm.engine, Abstract()) ==
              Step(old(fwpm.engine), old(Abstract()), taps, SetIps(ips, okConnect, okAccept))
      ensures old(Inv(fwpm.engine, Abstract(), taps)) ==> Inv(fwpm.engine, Abstract(), taps)
    {
      hide Inv;
      if Inv(fwpm.engine, Abstract(), taps) {
        StepKeeps(fwpm.engine, Abstract(), taps, SetIps(ips, okConnect, okAccept));
      }
      hide DropIds, AddFilters, DestFilters, Ids, UpdateSucceeds;
      if ips == whitelistIps {
        return;
      }
      if !isDisabled {
        whitelistIps := ips;
        return;
      }
      var prevIps, prevFilterIds := whitelistIps, whitelistFilterIds;
      whitelistIps := ips;
      fwpm.BeginTransaction();
      fwpm.engine := RemoveById(fwpm.engine, whitelistFilterIds);
      whitelistFilterIds := [];
      ghost var s := old(Abstract()).(ips := ips);
      var now := Abstract();
      SameFilters(now, s, taps);
      SameUpdate(now, s, okConnect, okAccept);
      var e, ids, ok := AddDestinations(fwpm.engine, now, [okConnect, okAccept]);
      fwpm.engine, whitelistFilterIds := e, ids;
      if !ok {
        fwpm.AbortTransaction();
        whitelistIps := prevIps;
        whitelistFilterIds := prevFilterIds;
      }
    }
  }

  lemma AcceptedUpdateSucceeds(s: State)
    ensures UpdateSucceeds(s, true, true)
  {
  }

  lemma SameUpdate(s: State, t: State, okConnect: bool, okAccept: bool)
    requires s.mode == t.mode && s.ips == t.ips
    ensures UpdateSucceeds(s, okConnect, okAccept) == UpdateSucceeds(t, okConnect, okAccept)
  {
  }
}
