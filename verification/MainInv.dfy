/** The run invariant of the main sublayer and what follows from it. */
module MainInv {
  import opened Wfp
  import opened WfpCalls
  import opened WfpOrder
  import opened MainRun

  /** Three named groups of filters, `last` and `middle` under the two recorded lists. */
  predicate Groups(e: Engine, base: seq<nat>, a: seq<nat>, i: seq<nat>,
                   fb: seq<Filter>, fa: seq<Filter>, fi: seq<Filter>)
  {
    |base| == |fb| && |a| == |fa| && |i| == |fi| && Holds(e, Main, base + a + i, fb + fa + fi)
  }

  predicate SplitGroups(e: Engine, s: Split, fb: seq<Filter>, base: seq<nat>)
  {
    Groups(e, base, s.idsApps, s.idsIps, fb, AppFilters(s), IpFilters(s))
  }

  ghost predicate Inv(y: Sys)
  {
    && Fresh(y.engine)
    && (IsOn(y.engine) ==> exists base :: SplitGroups(y.engine, y.split, y.base, base))
    && (!IsOn(y.engine) ==> y.split.idsApps == [] && y.split.idsIps == [] && Holds(y.engine, Main, [], []))
  }

  lemma OnlyMain(s: Split)
    ensures forall f :: f in AppFilters(s) ==> f.sublayer == Main
    ensures forall f :: f in IpFilters(s) ==> f.sublayer == Main
  {
    ExpandSublayer(Main, AppAdds(s));
    ExpandSublayer(Main, IpAdds(s));
  }

  // --- Replacing one group ---

  lemma DropNames(e: Engine, ids: seq<nat>, part: seq<nat>, fs: seq<Filter>)
    requires Holds(e, Main, ids, fs) && forall id :: id in part ==> id in ids
    ensures Rest(DropIds(e, part), Main) == Rest(e, Main) && DropIds(e, part).sublayers == e.sublayers
  {
    forall id | id in part && id in e.filters ensures e.filters[id].sublayer == Main {
    }
    DropIdsKeepsRest(e, Main, part);
  }

  /** The middle group under new identifiers. */
  lemma SwapMiddle(e: Engine, base: seq<nat>, a: seq<nat>, i: seq<nat>,
                   fb: seq<Filter>, fa: seq<Filter>, fi: seq<Filter>, more: seq<Filter>)
    requires Fresh(e) && Groups(e, base, a, i, fb, fa, fi) && forall f :: f in more ==> f.sublayer == Main
    ensures var e1 := DropIds(e, a); var e2 := AddFilters(e1, more);
      && Fresh(e2) && Groups(e2, base, Ids(e1.nextId, |more|), i, fb, more, fi)
      && Rest(e2, Main) == Rest(e, Main) && e2.sublayers == e.sublayers
  {
    hide Holds, DropIds, AddFilters, Rest, Fresh;
    HoldsSwap(e, Main, base, a, i, fb, fa, fi);
    DropNames(e, base + a + i, a, fb + fa + fi);
    HoldsFewer(e, Main, base + i, fb + fi, a, fa);
    var e1 := DropIds(e, a);
    HoldsMore(e1, Main, base + i, fb + fi, more);
    AddKeepsRest(e1, Main, more);
    HoldsSwap(AddFilters(e1, more), Main, base, i, Ids(e1.nextId, |more|), fb, fi, more);
  }

  /** The last group under new identifiers. */
  lemma SwapLast(e: Engine, base: seq<nat>, a: seq<nat>, i: seq<nat>, fb: seq<Filter>, fa: seq<Filter>, fi: seq<Filter>,
                 more: seq<Filter>)
    requires Fresh(e) && Groups(e, base, a, i, fb, fa, fi) && forall f :: f in more ==> f.sublayer == Main
    ensures var e1 := DropIds(e, i); var e2 := AddFilters(e1, more);
      && Fresh(e2) && Groups(e2, base, a, Ids(e1.nextId, |more|), fb, fa, more)
      && Rest(e2, Main) == Rest(e, Main) && e2.sublayers == e.sublayers
  {
    hide Holds, DropIds, AddFilters, Rest, Fresh;
    DropNames(e, base + a + i, i, fb + fa + fi);
    HoldsFewer(e, Main, base + a, fb + fa, i, fi);
    var e1 := DropIds(e, i);
    HoldsMore(e1, Main, base + a, fb + fa, more);
    AddKeepsRest(e1, Main, more);
  }

  lemma Unchanged(e: Engine)
    ensures DropIds(e, []) == e && AddFilters(e, []) == e && Ids(e.nextId, 0) == []
  {
  }

  /** Emptying both groups. */
  lemma EmptyBoth(e: Engine, s: Split, fb: seq<Filter>, base: seq<nat>)
    requires Fresh(e) && SplitGroups(e, s, fb, base)
    ensures var e2 := DropIds(DropIds(e, s.idsApps), s.idsIps);
      && Fresh(e2) && Groups(e2, base, [], [], fb, [], [])
      && Rest(e2, Main) == Rest(e, Main) && e2.sublayers == e.sublayers
  {
    hide Holds, DropIds, AddFilters, Rest, Fresh, Ids, AppFilters, IpFilters;
    SwapMiddle(e, base, s.idsApps, s.idsIps, fb, AppFilters(s), IpFilters(s), []);
    var e1 := DropIds(e, s.idsApps);
    Unchanged(e1);
    SwapLast(e1, base, [], s.idsIps, fb, [], IpFilters(s), []);
    Unchanged(DropIds(e1, s.idsIps));
  }

  /** Filling both groups from the settings. */
  lemma FillBoth(e: Engine, s: Split, fb: seq<Filter>, base: seq<nat>)
    requires Fresh(e) && Groups(e, base, [], [], fb, [], []) && s.idsApps == [] && s.idsIps == []
    ensures var (e1, s1) := AddApps(e, s); var (e2, s2) := AddIps(e1, s1);
      Fresh(e2) && SplitGroups(e2, s2, fb, base) && Rest(e2, Main) == Rest(e, Main) && e2.sublayers == e.sublayers
  {
    hide Holds, DropIds, AddFilters, Rest, Fresh, Ids, AppFilters, IpFilters;
    OnlyMain(s);
    Unchanged(e);
    SwapMiddle(e, base, [], [], fb, [], [], AppFilters(s));
    var (e1, s1) := AddApps(e, s);
    assert [] + Ids(e.nextId, |AppFilters(s)|) == Ids(e.nextId, |AppFilters(s)|);
    Unchanged(e1);
    FiltersOfSettings(s, s1);
    OnlyMain(s1);
    SwapLast(e1, base, s1.idsApps, [], fb, AppFilters(s), [], IpFilters(s1));
    var (e2, s2) := AddIps(e1, s1);
    assert [] + Ids(e1.nextId, |IpFilters(s1)|) == Ids(e1.nextId, |IpFilters(s1)|);
    FiltersOfSettings(s1, s2);
  }

  lemma FiltersOfSettings(s: Split, t: Split)
    requires s.enabled == t.enabled && s.exclusive == t.exclusive
    ensures s.apps == t.apps ==> AppFilters(s) == AppFilters(t)
    ensures s.ips == t.ips ==> IpFilters(s) == IpFilters(t)
  {
    hide ExpandAll;
  }

  // --- One step ---

  lemma TurnOffHolds(e: Engine)
    requires Fresh(e) && (!IsOn(e) ==> Holds(e, Main, [], []))
    ensures var e' := TurnOff(e);
      Fresh(e') && Holds(e', Main, [], []) && !IsOn(e') && Rest(e', Main) == Rest(e, Main) &&
      e'.sublayers == e.sublayers - {Main}
  {
  }

  lemma WithMain(e: Engine)
    requires Fresh(e) && Holds(e, Main, [], [])
    ensures var e' := e.(sublayers := e.sublayers + {Main});
      Fresh(e') && Holds(e', Main, [], []) && Rest(e', Main) == Rest(e, Main)
  {
  }

  lemma TurnOnHolds(e: Engine, s: Split, env: Env, cfg: Config)
    requires Fresh(e) && Holds(e, Main, [], []) && s.idsApps == [] && s.idsIps == []
    ensures var (e', s') := TurnOn(e, s, env, cfg);
      && Inv(Sys(e', s', OtherFilters(cfg, env, s.vpnApps)))
      && Rest(e', Main) == Rest(e, Main) && e'.sublayers == e.sublayers + {Main}
      && s' == s.(idsApps := s'.idsApps, idsIps := s'.idsIps)
  {
    hide Holds, AddFilters, Rest, Fresh, Ids, AppFilters, IpFilters, Before, After, ExpandAll;
    WithMain(e);
    var e0 := e.(sublayers := e.sublayers + {Main});
    var fb, ft := ExpandAll(Main, Before(cfg, env)), ExpandAll(Main, After(cfg, env, s.vpnApps));
    ExpandSublayer(Main, Before(cfg, env));
    ExpandSublayer(Main, After(cfg, env, s.vpnApps));
    HoldsMore(e0, Main, [], [], fb);
    AddKeepsRest(e0, Main, fb);
    var e1, base := AddFilters(e0, fb), Ids(e0.nextId, |fb|);
    IdsLength(e0.nextId, |fb|);
    assert [] + base == base && [] + fb == fb && base + [] + [] == base && fb + [] + [] == fb;
    FillBoth(e1, s, fb, base);
    var (e2, s2) := AddApps(e1, s);
    var (e3, s3) := AddIps(e2, s2);
    FiltersOfSettings(s, s3);
    AppendBase(e3, s3, fb, base, ft);
    assert SplitGroups(AddFilters(e3, ft), s3, fb + ft, base + Ids(e3.nextId, |ft|));
  }

  /** More base filters behind the split-tunnelling ones. */
  lemma AppendBase(e: Engine, s: Split, fb: seq<Filter>, base: seq<nat>, more: seq<Filter>)
    requires Fresh(e) && SplitGroups(e, s, fb, base) && forall f :: f in more ==> f.sublayer == Main
    ensures var e' := AddFilters(e, more);
      && Fresh(e') && SplitGroups(e', s, fb + more, base + Ids(e.nextId, |more|))
      && Rest(e', Main) == Rest(e, Main) && e'.sublayers == e.sublayers
  {
    hide Holds, AddFilters, Rest, Fresh, AppFilters, IpFilters, Ids;
    IdsLength(e.nextId, |more|);
    var a, i, fa, fi := s.idsApps, s.idsIps, AppFilters(s), IpFilters(s);
    var ids := Ids(e.nextId, |more|);
    HoldsMore(e, Main, base + a + i, fb + fa + fi, more);
    AddKeepsRest(e, Main, more);
    Regroup(base, a, i, ids);
    Regroup(fb, fa, fi, more);
    HoldsSwap(AddFilters(e, more), Main, base, a + i, ids, fb, fa + fi, more);
  }

  lemma Regroup<T>(a: seq<T>, b: seq<T>, c: seq<T>, d: seq<T>)
    ensures a + b + c + d == a + (b + c) + d && a + d + (b + c) == a + d + b + c
  {
  }

  /** What every step leaves alone: the other sublayers. */
  predicate OthersKept(e: Engine, e': Engine)
  {
    Rest(e', Main) == Rest(e, Main) && e'.sublayers - {Main} == e.sublayers - {Main}
  }

  lemma OnKeeps(y: Sys, env: Env, cfg: Config, subOk: bool)
    requires Inv(y)
    ensures Inv(StepOn(y, env, cfg, subOk)) && OthersKept(y.engine, StepOn(y, env, cfg, subOk).engine)
    ensures IsOn(StepOn(y, env, cfg, subOk).engine) == subOk
  {
    hide Holds, Rest, Fresh, SplitGroups, TurnOn, OtherFilters;
    TurnOffHolds(y.engine);
    var e := TurnOff(y.engine);
    var s := if IsOn(y.engine) then Forget(y.split) else y.split;
    TurnOnHolds(e, s, env, cfg);
  }

  lemma EnabledKeeps(y: Sys, exclusive: bool)
    requires Inv(y)
    ensures Inv(StepEnabled(y, exclusive)) && OthersKept(y.engine, StepEnabled(y, exclusive).engine)
  {
    hide Holds, Rest, Fresh, DropIds, AddApps, AddIps, AppFilters, IpFilters;
    var s := y.split.(idsApps := [], idsIps := [], enabled := true, exclusive := exclusive);
    if IsOn(y.engine) {
      var base :| SplitGroups(y.engine, y.split, y.base, base);
      EmptyBoth(y.engine, y.split, y.base, base);
      var e2 := DropIds(DropIds(y.engine, y.split.idsApps), y.split.idsIps);
      FillBoth(e2, s, y.base, base);
    } else {
      Unchanged(y.engine);
    }
  }

  lemma DisabledKeeps(y: Sys)
    requires Inv(y)
    ensures Inv(StepDisabled(y)) && OthersKept(y.engine, StepDisabled(y).engine)
  {
    hide Holds, Rest, Fresh, DropIds;
    var s := StepDisabled(y).split;
    assert AppFilters(s) == [] && IpFilters(s) == [];
    if IsOn(y.engine) {
      var base :| SplitGroups(y.engine, y.split, y.base, base);
      EmptyBoth(y.engine, y.split, y.base, base);
      assert SplitGroups(StepDisabled(y).engine, s, y.base, base);
    } else {
      Unchanged(y.engine);
    }
  }

  lemma RefreshAppsKeeps(y: Sys, s: Split)
    requires Inv(y) && s == y.split.(apps := s.apps, vpnApps := s.vpnApps)
    ensures Inv(RefreshApps(y, s)) && OthersKept(y.engine, RefreshApps(y, s).engine)
  {
    hide Holds, Rest, Fresh, DropIds, AddFilters, AppFilters, IpFilters, Ids;
    if IsOn(y.engine) {
      var base :| SplitGroups(y.engine, y.split, y.base, base);
      FiltersOfSettings(y.split, s);
      OnlyMain(s);
      if s.enabled {
        SwapMiddle(y.engine, base, s.idsApps, s.idsIps, y.base, AppFilters(y.split), IpFilters(s), AppFilters(s));
        var e1 := DropIds(y.engine, s.idsApps);
        var s' := RefreshApps(y, s).split;
        FiltersOfSettings(s, s');
        FiltersOfSettings(s, s.(idsApps := []));
        assert [] + Ids(e1.nextId, |AppFilters(s)|) == Ids(e1.nextId, |AppFilters(s)|);
        assert SplitGroups(RefreshApps(y, s).engine, s', y.base, base);
      } else {
        NoSplitFilters(y.split);
        NoSplitFilters(s);
        assert SplitGroups(y.engine, s, y.base, base);
      }
    }
  }

  lemma NoSplitFilters(s: Split)
    requires !s.enabled
    ensures AppFilters(s) == [] && IpFilters(s) == []
  {
  }

  lemma SetIpsKeeps(y: Sys, env: Env, ips: seq<IpRange>)
    requires Inv(y)
    ensures Inv(Step(y, env, SetIps(ips))) && OthersKept(y.engine, Step(y, env, SetIps(ips)).engine)
  {
    hide Holds, Rest, Fresh, DropIds, AddFilters, AppFilters, IpFilters, Ids;
    var s := y.split.(ips := ips);
    if IsOn(y.engine) && ips != y.split.ips {
      var base :| SplitGroups(y.engine, y.split, y.base, base);
      FiltersOfSettings(y.split, s);
      OnlyMain(s);
      if s.enabled {
        SwapLast(y.engine, base, s.idsApps, s.idsIps, y.base, AppFilters(s), IpFilters(y.split), IpFilters(s));
        var e1 := DropIds(y.engine, s.idsIps);
        var (e', s') := ReplaceIps(y.engine, s);
        FiltersOfSettings(s, s');
        FiltersOfSettings(s, s.(idsIps := []));
        assert [] + Ids(e1.nextId, |IpFilters(s)|) == Ids(e1.nextId, |IpFilters(s)|);
        assert SplitGroups(e', s', y.base, base);
      } else {
        NoSplitFilters(y.split);
        NoSplitFilters(s);
        assert SplitGroups(y.engine, s, y.base, base);
      }
    }
  }

  lemma StepKeeps(y: Sys, env: Env, ev: Event)
    requires Inv(y)
    ensures Inv(Step(y, env, ev)) && OthersKept(y.engine, Step(y, env, ev).engine)
  {
    hide StepOn, StepEnabled, StepDisabled, RefreshApps, SplitGroups, Rest, ReplaceIps;
    match ev
    case On(cfg, subOk) => OnKeeps(y, env, cfg, subOk);
    case Off => TurnOffHolds(y.engine);
    case SetEnabled(exclusive) => EnabledKeeps(y, exclusive);
    case SetDisabled => DisabledKeeps(y);
    case SetApps(apps) => RefreshAppsKeeps(y, y.split.(apps := apps));
    case SetVpnApps(apps) => RefreshAppsKeeps(y, y.split.(vpnApps := apps));
    case SetIps(ips) => SetIpsKeeps(y, env, ips);
  }

  // --- Runs ---

  lemma {:induction false} RunKeeps(y: Sys, env: Env, events: seq<Event>)
    requires Inv(y)
    ensures Inv(Run(y, env, events)) && OthersKept(y.engine, Run(y, env, events).engine)
    decreases |events|
  {
    hide Inv, Step, Rest;
    if events != [] {
      StepKeeps(y, env, events[0]);
      RunKeeps(Step(y, env, events[0]), env, events[1..]);
    }
  }

  const INITIAL := Split(false, false, [], [], [], [], [])

  lemma GroupsNamed(e: Engine, base: seq<nat>, a: seq<nat>, i: seq<nat>,
                    fb: seq<Filter>, fa: seq<Filter>, fi: seq<Filter>)
    requires Groups(e, base, a, i, fb, fa, fi)
    ensures Names(e, a, fa) && Names(e, i, fi)
  {
    NamesLast(e, Main, base + a, i, fb + fa, fi);
    HoldsSwap(e, Main, base, a, i, fb, fa, fi);
    NamesLast(e, Main, base + i, a, fb + fi, fa);
  }

  /** In every run from a state without the sublayer, while the firewall is on the sublayer is, filter by filter, what
      the last on() added besides the split-tunnelling filters and those of the current settings, which the two
      recorded lists name in order; while it is off there is no filter and nothing is recorded. */
  lemma RunFollowsSettings(e: Engine, base: seq<Filter>, env: Env, events: seq<Event>)
    requires Fresh(e) && !IsOn(e) && Holds(e, Main, [], [])
    ensures var z := Run(Sys(e, INITIAL, base), env, events);
      if IsOn(z.engine) then
        && (exists ids :: |ids| == |z.base| &&
             Holds(z.engine, Main, ids + z.split.idsApps + z.split.idsIps,
                   z.base + AppFilters(z.split) + IpFilters(z.split)))
        && Names(z.engine, z.split.idsApps, AppFilters(z.split))
        && Names(z.engine, z.split.idsIps, IpFilters(z.split))
      else
        z.split.idsApps == [] && z.split.idsIps == [] && Holds(z.engine, Main, [], [])
  {
    hide Run, AppFilters, IpFilters, Holds, Names;
    RunKeeps(Sys(e, INITIAL, base), env, events);
    var z := Run(Sys(e, INITIAL, base), env, events);
    if IsOn(z.engine) {
      var ids :| SplitGroups(z.engine, z.split, z.base, ids);
      GroupsNamed(z.engine, ids, z.split.idsApps, z.split.idsIps, z.base, AppFilters(z.split), IpFilters(z.split));
    }
  }

  predicate Installs(ev: Event) { ev.On? && ev.subOk }

  /** What the base filters of a step are. */
  lemma BaseFollows(y: Sys, env: Env, ev: Event)
    ensures Step(y, env, ev).base == if Installs(ev) then OtherFilters(ev.cfg, env, y.split.vpnApps) else y.base
  {
    hide OtherFilters, TurnOn, TurnOff, AddApps, AddIps, DropIds;
  }

  /** Until the next on() they stay. */
  lemma {:induction false} BaseStays(y: Sys, env: Env, events: seq<Event>)
    requires forall ev :: ev in events ==> !Installs(ev)
    ensures Run(y, env, events).base == y.base
    decreases |events|
  {
    if events != [] {
      hide Step, Installs;
      BaseFollows(y, env, events[0]);
      BaseStays(Step(y, env, events[0]), env, events[1..]);
    }
  }

  /** The recorded filters are those a fresh on() would record, for any configuration. */
  lemma SplitFiltersAsFreshOn(y: Sys, env: Env, cfg: Config)
    requires Inv(y) && IsOn(y.engine)
    ensures var f := StepOn(y, env, cfg, true);
      && (exists fs :: Names(y.engine, y.split.idsApps, fs) && Names(f.engine, f.split.idsApps, fs))
      && (exists fs :: Names(y.engine, y.split.idsIps, fs) && Names(f.engine, f.split.idsIps, fs))
  {
    hide Groups, AppFilters, IpFilters, Names, TurnOn, OtherFilters, Holds;
    OnKeeps(y, env, cfg, true);
    var f := StepOn(y, env, cfg, true);
    var a :| SplitGroups(y.engine, y.split, y.base, a);
    var b :| SplitGroups(f.engine, f.split, f.base, b);
    GroupsNamed(y.engine, a, y.split.idsApps, y.split.idsIps, y.base, AppFilters(y.split), IpFilters(y.split));
    GroupsNamed(f.engine, b, f.split.idsApps, f.split.idsIps, f.base, AppFilters(f.split), IpFilters(f.split));
    SettingsKept(y, env, cfg);
    FiltersOfSettings(y.split, f.split);
  }

  lemma SettingsKept(y: Sys, env: Env, cfg: Config)
    ensures var f := StepOn(y, env, cfg, true).split;
      f == y.split.(idsApps := f.idsApps, idsIps := f.idsIps)
  {
    hide AppFilters, IpFilters, AddFilters, Ids;
  }

  // --- The VPN executables ---

  /** Changing the VPN executables while the firewall is on does not touch the permit for the server being connected
      to: in every run after an on(), while the firewall is still on, the sublayer is what on() with the same
      configuration would install now if and only if the executables are the same again or there was no IPv4 address to
      permit. */
  lemma VpnAppsFollowedIff(y: Sys, env: Env, cfg: Config, events: seq<Event>)
    requires Inv(y) && forall ev :: ev in events ==> !Installs(ev)
    ensures var z := Run(StepOn(y, env, cfg, true), env, events);
      IsOn(z.engine) ==>
        (SameSublayer(z.engine, StepOn(z, env, cfg, true).engine, Main) <==>
          z.split.vpnApps == y.split.vpnApps || cfg.connectingIp.family != V4)
  {
    hide Run, Holds, OtherFilters, TurnOn, TurnOff, SplitGroups, Fresh, Rest, SameSublayer, Installs;
    var y1 := StepOn(y, env, cfg, true);
    OnKeeps(y, env, cfg, true);
    RunKeeps(y1, env, events);
    BaseStays(y1, env, events);
    BaseOfOn(y, env, cfg);
    var z := Run(y1, env, events);
    if IsOn(z.engine) {
      SameAsReinstalled(z, env, cfg);
      OtherFiltersSameIff(cfg, env, y.split.vpnApps, z.split.vpnApps);
    }
  }

  /** A fresh on() would leave the same sublayer exactly when it would add the same base filters. */
  lemma SameAsReinstalled(z: Sys, env: Env, cfg: Config)
    requires Inv(z) && IsOn(z.engine)
    ensures SameSublayer(z.engine, StepOn(z, env, cfg, true).engine, Main) <==>
      multiset(z.base) == multiset(OtherFilters(cfg, env, z.split.vpnApps))
  {
    hide Holds, OtherFilters, AppFilters, IpFilters, StepOn, Fresh, Rest, SameSublayer;
    var f := StepOn(z, env, cfg, true);
    OnKeeps(z, env, cfg, true);
    SettingsKept(z, env, cfg);
    FiltersOfSettings(z.split, f.split);
    BaseOfOn(z, env, cfg);
    var ids :| SplitGroups(z.engine, z.split, z.base, ids);
    var ids' :| SplitGroups(f.engine, f.split, f.base, ids');
    SameGroups(z.engine, f.engine, ids, z.split.idsApps, z.split.idsIps, z.base,
               ids', f.split.idsApps, f.split.idsIps, f.base, AppFilters(z.split), IpFilters(z.split));
  }

  lemma SameGroups(e: Engine, f: Engine, b: seq<nat>, a: seq<nat>, i: seq<nat>, fb: seq<Filter>,
                   b': seq<nat>, a': seq<nat>, i': seq<nat>, fb': seq<Filter>, fa: seq<Filter>, fi: seq<Filter>)
    requires Groups(e, b, a, i, fb, fa, fi) && Groups(f, b', a', i', fb', fa, fi)
    ensures SameSublayer(e, f, Main) <==> multiset(fb) == multiset(fb')
  {
    hide Holds, SameSublayer;
    SameSublayerIff(e, f, Main, b + a + i, fb + fa + fi, b' + a' + i', fb' + fa + fi);
    SameEnds([], fb, fb', fa + fi);
    assert [] + fb + (fa + fi) == fb + fa + fi && [] + fb' + (fa + fi) == fb' + fa + fi;
  }

  lemma BaseOfOn(y: Sys, env: Env, cfg: Config)
    ensures StepOn(y, env, cfg, true).base == OtherFilters(cfg, env, y.split.vpnApps)
  {
    hide OtherFilters, TurnOn, TurnOff;
  }

  /** The same filters in front and behind do not matter for the contents. */
  lemma SameEnds(a: seq<Filter>, x: seq<Filter>, y: seq<Filter>, b: seq<Filter>)
    ensures multiset(a + x + b) == multiset(a + y + b) <==> multiset(x) == multiset(y)
  {
    var mx, my := multiset(x), multiset(y);
    var ends := multiset(a) + multiset(b);
    assert multiset(a + x + b) == ends + mx && multiset(a + y + b) == ends + my;
    if ends + mx == ends + my {
      forall f ensures mx[f] == my[f] {
        assert (ends + mx)[f] == (ends + my)[f];
      }
    }
  }

  lemma OtherFiltersSameIff(cfg: Config, env: Env, v: seq<nat>, w: seq<nat>)
    ensures multiset(OtherFilters(cfg, env, v)) == multiset(OtherFilters(cfg, env, w)) <==>
      w == v || cfg.connectingIp.family != V4
  {
    hide ExpandAll, Before, FixedAdds, AddressAdds, Expand, OtherFilters, ConnectingAdd;
    var before, later := ExpandAll(Main, Before(cfg, env)), ExpandAll(Main, AddressAdds(cfg.ips) + FixedAdds(cfg));
    SplitAfter(cfg, env, v);
    SplitAfter(cfg, env, w);
    SameEnds(before, Expand(Main, ConnectingAdd(cfg, env, v)), Expand(Main, ConnectingAdd(cfg, env, w)), later);
    ConnectingUpToOrder(cfg, env, v, w);
    ConnectingSameIff(cfg, env, v, w);
  }

  /** The filters of one call stand at different layers, so their order carries nothing. */
  lemma ConnectingUpToOrder(cfg: Config, env: Env, v: seq<nat>, w: seq<nat>)
    ensures var a, b := Expand(Main, ConnectingAdd(cfg, env, v)), Expand(Main, ConnectingAdd(cfg, env, w));
      multiset(a) == multiset(b) <==> a == b
  {
    hide Conditions, RangeConditions;
    var a, b := Expand(Main, ConnectingAdd(cfg, env, v)), Expand(Main, ConnectingAdd(cfg, env, w));
    if multiset(a) == multiset(b) && a != [] {
      assert a[0] in multiset(a) && a[1] in multiset(a);
      assert a[0] in b && a[1] in b;
    }
  }

  lemma SplitAfter(cfg: Config, env: Env, u: seq<nat>)
    ensures OtherFilters(cfg, env, u) ==
      ExpandAll(Main, Before(cfg, env)) + Expand(Main, ConnectingAdd(cfg, env, u)) +
      ExpandAll(Main, AddressAdds(cfg.ips) + FixedAdds(cfg))
  {
    hide ExpandAll, Before, FixedAdds, AddressAdds, Expand, ConnectingAdd;
    var rest := AddressAdds(cfg.ips) + FixedAdds(cfg);
    assert After(cfg, env, u) == [ConnectingAdd(cfg, env, u)] + rest;
    ExpandAppend(Main, [ConnectingAdd(cfg, env, u)], rest);
    ExpandOne(Main, ConnectingAdd(cfg, env, u));
  }

  lemma ConnectingSameIff(cfg: Config, env: Env, v: seq<nat>, w: seq<nat>)
    ensures Expand(Main, ConnectingAdd(cfg, env, v)) == Expand(Main, ConnectingAdd(cfg, env, w)) <==>
      w == v || cfg.connectingIp.family != V4
  {
    var r := cfg.connectingIp;
    assert RangeConditions(false, [r]) == if r.family == V4 then [RemoteAddress(r)] else [] by {
      assert [r][1..] == [];
    }
    if r.family == V4 {
      hide RangeConditions;
      hide AppConditions;
      SameAppConditions([RemoteAddress(r)], env.services, v, w);
      assert Conditions(ConnectingAdd(cfg, env, v)) == [RemoteAddress(r)] + AppConditions(env.services + v);
      assert Conditions(ConnectingAdd(cfg, env, w)) == [RemoteAddress(r)] + AppConditions(env.services + w);
    }
  }

  lemma SameAppConditions(first: seq<Condition>, services: seq<nat>, v: seq<nat>, w: seq<nat>)
    ensures first + AppConditions(services + v) == first + AppConditions(services + w) <==> v == w
  {
    var cv, cw := first + AppConditions(services + v), first + AppConditions(services + w);
    if cv == cw {
      assert |v| == |w|;
      forall k | 0 <= k < |v| ensures v[k] == w[k] {
        assert cv[|first| + |services| + k] == App(v[k]);
        assert cw[|first| + |services| + k] == App(w[k]);
      }
    }
  }
}
