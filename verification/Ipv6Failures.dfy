/** Rebuilds and updates of the IPv6 sublayer that fail, and exactly when the controller's books survive them. */
module Ipv6Failures {
  import opened Wfp
  import opened WfpCalls
  import opened WfpOrder
  import opened WfpVerdict
  import opened Ipv6Run

  /** There are destination filters exactly when a mode is on and the list has an IPv6 entry. */
  lemma DestFiltersIff(s: State)
    ensures DestFilters(s) == [] <==> s.mode == Disabled || RangeConditions(true, s.ips) == []
  {
    hide Conditions;
  }

  // --- Which settings ask for the same filters ---

  /** Local traffic is permitted. */
  predicate LanOpen(s: State) { s.allowLan || s.custom }

  /** No split-tunnelling filter besides those for destinations. */
  predicate NoModeFilters(s: State) { s.mode == Disabled || (s.mode == Exclusive && s.apps == []) }

  predicate SameDemand(s: State, t: State)
  {
    LanOpen(s) == LanOpen(t) && (if NoModeFilters(s) then NoModeFilters(t) else s.mode == t.mode && s.apps == t.apps)
  }

  /** Permanent and for IPv6, as every call of a build is. */
  predicate BuildCall(a: Add) { IsV6(a) && (a.Add? ==> a.persistent) }

  predicate SameFilter(a: Add, b: Add)
  {
    ActionOf(a) == ActionOf(b) && a.weight == b.weight && Conditions(a) == Conditions(b)
  }

  function Probe(a: Add): Filter { FilterAt(Ipv6, a, ConnectV6) }

  lemma ProbeInExpand(a: Add, b: Add)
    requires BuildCall(a) && BuildCall(b)
    ensures Probe(a) in Expand(Ipv6, b) <==> !Skipped(b) && SameFilter(a, b)
  {
    hide Conditions, Skipped;
  }

  lemma {:induction false} TunnelPermitShape(taps: seq<Tap>, weight: nat)
    ensures forall a :: a in TunnelPermits(taps, weight) ==>
      && BuildCall(a) && ActionOf(a) == Permit && a.weight == weight
      && |Conditions(a)| == 1 && Conditions(a)[0].LocalInterface?
  {
    if taps != [] {
      TunnelPermitShape(taps[1..], weight);
    }
  }

  lemma OneRange(r: IpRange)
    requires r.family == V6
    ensures RangeConditions(true, [r]) == [RemoteAddress(r)]
  {
    assert [r][1..] == [];
  }

  lemma LanConditions()
    ensures RangeConditions(true, [UNIQUE_LOCAL, MULTICAST]) == [RemoteAddress(UNIQUE_LOCAL), RemoteAddress(MULTICAST)]
  {
    OneRange(MULTICAST);
    assert [UNIQUE_LOCAL, MULTICAST][1..] == [MULTICAST];
  }

  /** What the calls outside the tunnel permits put into their filters. */
  lemma CallShapes(action: Action, weight: nat, apps: seq<nat>)
    ensures Conditions(All(action, weight)) == [] && Conditions(ForApps(action, weight, apps)) == AppConditions(apps)
    ensures Conditions(To(action, weight, [LOOPBACK])) == [RemoteAddress(LOOPBACK)]
    ensures Conditions(To(action, weight, [LINK_LOCAL])) == [RemoteAddress(LINK_LOCAL)]
    ensures Conditions(To(action, weight, [UNIQUE_LOCAL, MULTICAST])) ==
      [RemoteAddress(UNIQUE_LOCAL), RemoteAddress(MULTICAST)]
  {
    hide RangeConditions, AppConditions;
    OneRange(LOOPBACK);
    OneRange(LINK_LOCAL);
    LanConditions();
  }

  lemma DestShape(s: State)
    ensures Conditions(DestAdd(s)) == RangeConditions(true, s.ips)
    ensures forall c :: c in RangeConditions(true, s.ips) ==> c.RemoteAddress?
  {
    forall c | c in RangeConditions(true, s.ips) ensures c.RemoteAddress? {
      InRangeConditions(true, s.ips, c);
    }
  }

  /** Every filter, destinations included, comes from a call of the build. */
  function AllAdds(s: State, taps: seq<Tap>): seq<Add>
  {
    BaseAdds(s, taps) + if s.mode == Disabled || s.ips == [] then [] else [DestAdd(s)]
  }

  function AllFilters(s: State, taps: seq<Tap>): seq<Filter> { BaseFilters(s, taps) + DestFilters(s) }

  lemma AllFromAdds(s: State, taps: seq<Tap>)
    ensures AllFilters(s, taps) == ExpandAll(Ipv6, AllAdds(s, taps))
  {
    hide BaseAdds, DestAdd, Expand, ExpandAll;
    ExpandAppend(Ipv6, BaseAdds(s, taps), [DestAdd(s)]);
    ExpandOne(Ipv6, DestAdd(s));
    assert BaseAdds(s, taps) + [] == BaseAdds(s, taps);
  }

  lemma AllBuildCalls(s: State, taps: seq<Tap>)
    ensures forall b :: b in AllAdds(s, taps) ==> BuildCall(b)
  {
    hide TunnelPermits;
    TunnelPermitShape(taps, 0);
    TunnelPermitShape(taps, 4);
  }

  lemma ProbeInAll(s: State, taps: seq<Tap>, a: Add)
    requires BuildCall(a)
    ensures Probe(a) in AllFilters(s, taps) <==> exists b :: b in AllAdds(s, taps) && !Skipped(b) && SameFilter(a, b)
  {
    hide AllAdds, AllFilters, ExpandAll, Expand, Skipped, Conditions;
    AllFromAdds(s, taps);
    AllBuildCalls(s, taps);
    InExpandAll(Ipv6, AllAdds(s, taps), Probe(a));
    forall b | b in AllAdds(s, taps)
      ensures Probe(a) in Expand(Ipv6, b) <==> !Skipped(b) && SameFilter(a, b)
    {
      ProbeInExpand(a, b);
    }
  }

  // --- Filters that give the settings away ---

  const LAN_ADD := To(Permit, 4, [UNIQUE_LOCAL, MULTICAST])

  predicate TunnelShaped(a: Add)
  {
    ActionOf(a) == Permit && |Conditions(a)| == 1 && Conditions(a)[0].LocalInterface?
  }

  /** Where a call of the build comes from. */
  predicate Kind(s: State, b: Add)
  {
    || b == All(Block, 0) || TunnelShaped(b) || b in Essentials()
    || (LanOpen(s) && b == LAN_ADD)
    || (s.mode == Inclusive && (b == All(Permit, 2) || (s.apps != [] && b == ForApps(Block, 3, s.apps))))
    || (s.mode == Exclusive && s.apps != [] && b == ForApps(Permit, 2, s.apps))
    || (s.mode != Disabled && s.ips != [] && b == DestAdd(s))
  }

  lemma AddsHaveKinds(s: State, taps: seq<Tap>)
    ensures forall b :: b in AllAdds(s, taps) ==> Kind(s, b)
  {
    hide TunnelPermits, Conditions;
    TunnelPermitShape(taps, 0);
    TunnelPermitShape(taps, 4);
  }

  lemma AppConditionsSame(v: seq<nat>, w: seq<nat>)
    ensures AppConditions(v) == AppConditions(w) <==> v == w
  {
    if AppConditions(v) == AppConditions(w) {
      forall k | 0 <= k < |v| ensures v[k] == w[k] {
        assert AppConditions(v)[k] == AppConditions(w)[k];
      }
    }
  }

  /** A call whose filter is that of the local-traffic permit is that permit. */
  lemma LanKind(s: State, b: Add)
    requires Kind(s, b) && SameFilter(LAN_ADD, b)
    ensures LanOpen(s)
  {
    hide Conditions, RangeConditions, AppConditions;
    ShapesOf(s);
    assert |Conditions(LAN_ADD)| == 2;
  }

  lemma InclusiveKind(s: State, b: Add)
    requires Kind(s, b) && !Skipped(b) && SameFilter(All(Permit, 2), b)
    ensures s.mode == Inclusive
  {
    hide Conditions, RangeConditions, AppConditions;
    ShapesOf(s);
    assert Conditions(All(Permit, 2)) == [];
  }

  lemma BlockedAppsKind(s: State, b: Add, apps: seq<nat>)
    requires Kind(s, b) && !Skipped(b) && apps != [] && SameFilter(ForApps(Block, 3, apps), b)
    ensures s.mode == Inclusive && s.apps == apps
  {
    hide Conditions, RangeConditions, AppConditions;
    ShapesOf(s);
    CallShapes(Block, 3, apps);
    AppConditionsSame(s.apps, apps);
    FirstApp(apps);
  }

  lemma PermittedAppsKind(s: State, b: Add, apps: seq<nat>)
    requires Kind(s, b) && !Skipped(b) && apps != [] && SameFilter(ForApps(Permit, 2, apps), b)
    ensures s.mode == Exclusive && s.apps == apps
  {
    hide Conditions, RangeConditions, AppConditions;
    ShapesOf(s);
    CallShapes(Permit, 2, apps);
    AppConditionsSame(s.apps, apps);
    FirstApp(apps);
  }

  lemma FirstApp(apps: seq<nat>)
    ensures apps != [] ==> AppConditions(apps) != [] && AppConditions(apps)[0].App?
    ensures AppConditions([]) == []
  {
  }

  /** The conditions of every call that is not a tunnel permit. */
  lemma ShapesOf(s: State)
    ensures Conditions(All(Block, 0)) == [] && Conditions(All(Permit, 2)) == []
    ensures Conditions(LAN_ADD) == [RemoteAddress(UNIQUE_LOCAL), RemoteAddress(MULTICAST)]
    ensures Conditions(To(Permit, 4, [LOOPBACK])) == [RemoteAddress(LOOPBACK)]
    ensures Conditions(To(Permit, 4, [LINK_LOCAL])) == [RemoteAddress(LINK_LOCAL)]
    ensures Conditions(AddIcmp6(130, 137, 4)) == [Icmp6Type(130, 137)]
    ensures Conditions(AddIcmp6(143, 143, 4)) == [Icmp6Type(143, 143)]
    ensures Conditions(ForApps(Block, 3, s.apps)) == AppConditions(s.apps)
    ensures Conditions(ForApps(Permit, 2, s.apps)) == AppConditions(s.apps)
    ensures s.apps != [] ==> AppConditions(s.apps) != [] && AppConditions(s.apps)[0].App?
    ensures !Skipped(DestAdd(s)) && s.ips != [] ==>
      Conditions(DestAdd(s)) != [] && Conditions(DestAdd(s))[0].RemoteAddress?
  {
    hide RangeConditions, AppConditions;
    CallShapes(Block, 0, []);
    CallShapes(Permit, 2, s.apps);
    CallShapes(Block, 3, s.apps);
    CallShapes(Permit, 4, []);
    FirstApp(s.apps);
    DestShape(s);
  }

  /** A destination filter is none of the base filters of any settings. */
  lemma DestKind(s: State, t: State, b: Add)
    requires s.ips != [] && !Skipped(DestAdd(s)) && Kind(t, b) && SameFilter(DestAdd(s), b)
    ensures b == DestAdd(t) && t.mode != Disabled && t.ips != []
  {
    hide Conditions, RangeConditions, AppConditions;
    ShapesOf(s);
    ShapesOf(t);
  }

  /** The filter of a call tells which setting put it there. */
  lemma Telling(s: State, taps: seq<Tap>, apps: seq<nat>)
    requires apps != []
    ensures Probe(LAN_ADD) in AllFilters(s, taps) <==> LanOpen(s)
    ensures Probe(All(Permit, 2)) in AllFilters(s, taps) <==> s.mode == Inclusive
    ensures Probe(ForApps(Block, 3, apps)) in AllFilters(s, taps) <==> s.mode == Inclusive && s.apps == apps
    ensures Probe(ForApps(Permit, 2, apps)) in AllFilters(s, taps) <==> s.mode == Exclusive && s.apps == apps
  {
    hide AllFilters, Kind, Conditions, SameFilter, TunnelPermits;
    AddsHaveKinds(s, taps);
    NotSkipped(apps);
    var adds := AllAdds(s, taps);
    ProbeInAll(s, taps, LAN_ADD);
    ProbeInAll(s, taps, All(Permit, 2));
    ProbeInAll(s, taps, ForApps(Block, 3, apps));
    ProbeInAll(s, taps, ForApps(Permit, 2, apps));
    forall b | b in adds && !Skipped(b)
      ensures SameFilter(LAN_ADD, b) ==> LanOpen(s)
      ensures SameFilter(All(Permit, 2), b) ==> s.mode == Inclusive
      ensures SameFilter(ForApps(Block, 3, apps), b) ==> s.mode == Inclusive && s.apps == apps
      ensures SameFilter(ForApps(Permit, 2, apps), b) ==> s.mode == Exclusive && s.apps == apps
    {
      if SameFilter(LAN_ADD, b) { LanKind(s, b); }
      if SameFilter(All(Permit, 2), b) { InclusiveKind(s, b); }
      if SameFilter(ForApps(Block, 3, apps), b) { BlockedAppsKind(s, b, apps); }
      if SameFilter(ForApps(Permit, 2, apps), b) { PermittedAppsKind(s, b, apps); }
    }
    SettingsPresent(s, taps);
  }

  lemma NotSkipped(apps: seq<nat>)
    ensures !Skipped(LAN_ADD) && !Skipped(All(Permit, 2))
    ensures !Skipped(ForApps(Block, 3, apps)) && !Skipped(ForApps(Permit, 2, apps))
    ensures forall a :: SameFilter(a, a)
  {
    LanConditions();
  }

  lemma SettingsPresent(s: State, taps: seq<Tap>)
    ensures LanOpen(s) ==> LAN_ADD in AllAdds(s, taps)
    ensures s.mode == Inclusive ==> All(Permit, 2) in AllAdds(s, taps)
    ensures s.mode == Inclusive && s.apps != [] ==> ForApps(Block, 3, s.apps) in AllAdds(s, taps)
    ensures s.mode == Exclusive && s.apps != [] ==> ForApps(Permit, 2, s.apps) in AllAdds(s, taps)
  {
    hide TunnelPermits;
    assert LanOpen(s) ==> LAN_ADD in LanAdds(s);
    assert s.mode == Inclusive ==> All(Permit, 2) in ModeAdds(s, taps);
    assert s.mode == Inclusive && s.apps != [] ==> ForApps(Block, 3, s.apps) in ModeAdds(s, taps);
    assert s.mode == Exclusive && s.apps != [] ==> ForApps(Permit, 2, s.apps) in ModeAdds(s, taps);
  }

  /** A destination filter is found only where the list asks for it. */
  lemma DestTelling(s: State, t: State, taps: seq<Tap>)
    requires DestFilters(s) != [] && t.ips == []
    ensures Probe(DestAdd(s)) in AllFilters(s, taps) && Probe(DestAdd(s)) !in AllFilters(t, taps)
  {
    hide BaseFilters, Kind, Conditions, SameFilter, BaseAdds, AllFilters;
    DestPresent(s, taps);
    AddsHaveKinds(t, taps);
    ProbeInAll(t, taps, DestAdd(s));
    forall b | b in AllAdds(t, taps) ensures !SameFilter(DestAdd(s), b) {
      if SameFilter(DestAdd(s), b) {
        DestKind(s, t, b);
      }
    }
  }

  lemma DestPresent(s: State, taps: seq<Tap>)
    requires DestFilters(s) != []
    ensures Probe(DestAdd(s)) in AllFilters(s, taps) && !Skipped(DestAdd(s)) && s.ips != []
  {
    hide BaseFilters, Conditions;
    assert Probe(DestAdd(s)) in DestFilters(s);
  }

  /** The base filters of `t` are, up to order, everything `s` asks for, exactly when `s` asks for no destination filter
      and for the same of the rest. */
  lemma SameDemandIff(s: State, t: State, taps: seq<Tap>)
    ensures multiset(BaseFilters(t, taps)) == multiset(AllFilters(s, taps)) <==>
      DestFilters(s) == [] && SameDemand(s, t)
  {
    hide BaseFilters, DestFilters, Probe, Conditions;
    var t0 := t.(ips := []);
    NoDestinations(t, taps);
    if multiset(BaseFilters(t, taps)) == multiset(AllFilters(s, taps)) {
      assert forall f :: f in AllFilters(t0, taps) <==> f in AllFilters(s, taps) by {
        SameElements(AllFilters(t0, taps), AllFilters(s, taps));
      }
      if DestFilters(s) != [] {
        DestTelling(s, t0, taps);
        assert false;
      }
      var apps := if s.apps != [] then s.apps else if t.apps != [] then t.apps else [0];
      Telling(s, taps, apps);
      Telling(t0, taps, apps);
      if t.apps != [] {
        Telling(s, taps, t.apps);
        Telling(t0, taps, t.apps);
      }
    }
    if DestFilters(s) == [] && SameDemand(s, t) {
      SameBase(s, t, taps);
      assert BaseFilters(s, taps) + [] == BaseFilters(s, taps);
    }
  }

  lemma NoDestinations(t: State, taps: seq<Tap>)
    ensures AllFilters(t.(ips := []), taps) == BaseFilters(t, taps)
  {
    hide BaseAdds;
    SameFilters(t, t.(ips := []), taps);
    assert BaseFilters(t, taps) + [] == BaseFilters(t, taps);
  }

  lemma SameElements(a: seq<Filter>, b: seq<Filter>)
    requires multiset(a) == multiset(b)
    ensures forall f :: f in a <==> f in b
  {
    assert forall f :: f in a <==> f in multiset(a);
    assert forall f :: f in b <==> f in multiset(b);
  }

  lemma SameBase(s: State, t: State, taps: seq<Tap>)
    requires SameDemand(s, t)
    ensures BaseFilters(s, taps) == BaseFilters(t, taps)
  {
    hide TunnelPermits, ExpandAll;
  }

  // --- A rebuild that cannot add its sublayer ---

  /** The event rebuilds an installed block: always for a new install, for a mode or app list only when it changes. */
  predicate Rebuilds(s: State, ev: Event)
  {
    ev.Disable? || (ev.SetMode? && (ev.mode != s.mode || ev.apps != s.apps))
  }

  predicate Fails(ev: Event) { (ev.Disable? || ev.SetMode?) && !ev.subOk }

  /** MAIN RESULT. A rebuild that cannot add the sublayer keeps the old filters, takes over the new settings and forgets
      the identifiers. The books are right afterwards if and only if there was no destination filter, there is none to
      be had, and the new settings ask for the same of the rest. */
  lemma FailedRebuildKeepsBooksIff(e: Engine, s: State, taps: seq<Tap>, ev: Event)
    requires Inv(e, s, taps) && s.installed && Fails(ev)
    ensures var (e', s') := Step(e, s, taps, ev);
      Inv(e', s', taps) <==>
        !Rebuilds(s, ev) || (DestFilters(s) == [] && DestFilters(s') == [] && SameDemand(s, s'))
  {
    hide HoldsWith, BaseFilters, DestFilters, SameDemand, Fresh, AllFilters;
    if Rebuilds(s, ev) {
      var (e', s') := Step(e, s, taps, ev);
      assert e' == e && s'.installed && s'.ids == [];
      ForgottenIff(e, s, s', taps);
      SameDemandIff(s, s', taps);
    }
  }

  /** Filters of `s` described by settings `t` with no identifier recorded. */
  lemma ForgottenIff(e: Engine, s: State, t: State, taps: seq<Tap>)
    requires Inv(e, s, taps) && s.installed && t.installed && t.ids == []
    ensures Inv(e, t, taps) <==>
      DestFilters(t) == [] && multiset(BaseFilters(t, taps)) == multiset(AllFilters(s, taps))
  {
    hide Fresh, Holds, BaseFilters, DestFilters;
    var base :| HoldsWith(e, s, taps, base);
    var fs, gs := AllFilters(s, taps), AllFilters(t, taps);
    HoldsUpToOrder(e, Ipv6, base + s.ids, fs, gs);
    if DestFilters(t) == [] {
      assert gs == BaseFilters(t, taps);
      forall ids | Holds(e, Ipv6, ids, gs) ensures HoldsWith(e, t, taps, ids) {
        HoldsLength(e, ids, gs);
        assert ids + t.ids == ids;
      }
      forall ids | HoldsWith(e, t, taps, ids) ensures Holds(e, Ipv6, ids, gs) {
        assert ids + t.ids == ids;
      }
    } else {
      forall ids ensures !HoldsWith(e, t, taps, ids) {
        if HoldsWith(e, t, taps, ids) {
          HoldsLength(e, ids + t.ids, gs);
        }
      }
    }
  }

  lemma HoldsLength(e: Engine, ids: seq<nat>, fs: seq<Filter>)
    requires Holds(e, Ipv6, ids, fs)
    ensures |ids| == |fs|
  {
  }

  /** With unchanged settings, as on a reconnect: exactly when no mode is on or the list has no IPv6 entry. */
  lemma FailedReinstallKeepsBooksIff(e: Engine, s: State, taps: seq<Tap>)
    requires Inv(e, s, taps) && s.installed
    ensures var (e', s') := Step(e, s, taps, Disable(s.allowLan, s.custom, false));
      Inv(e', s', taps) <==> s.mode == Disabled || RangeConditions(true, s.ips) == []
  {
    hide Inv, BaseFilters, DestFilters, RangeConditions;
    var ev := Event.Disable(s.allowLan, s.custom, false);
    FailedRebuildKeepsBooksIff(e, s, taps, ev);
    DestFiltersIff(s);
    DestFiltersIff(Step(e, s, taps, ev).1);
  }

  /** A mode change that fails spoils the books although there is no destination filter before or after. */
  lemma FailedModeChangeSpoilsBooks(e: Engine, s: State, taps: seq<Tap>)
    requires Inv(e, s, taps) && s.installed && s.mode == Disabled && s.ips == []
    ensures var (e', s') := Step(e, s, taps, SetMode(Inclusive, [], false));
      DestFilters(s) == [] && DestFilters(s') == [] && !Inv(e', s', taps)
  {
    hide Inv, BaseFilters;
    FailedRebuildKeepsBooksIff(e, s, taps, SetMode(Inclusive, [], false));
  }

  /** After a failed rebuild no later update of the list removes the destination filters of the old list. */
  lemma FailedRebuildLeavesStaleFilters(
      e: Engine, s: State, taps: seq<Tap>, ev: Event, ips: seq<IpRange>, okConnect: bool, okAccept: bool)
    requires Inv(e, s, taps) && s.installed && Fails(ev) && Rebuilds(s, ev)
    ensures var (e1, s1) := Step(e, s, taps, ev);
      var (e2, _) := Update(e1, s1, ips, okConnect, okAccept);
      Names(e2, s.ids, DestFilters(s))
  {
    hide BaseFilters, DestFilters, UpdateSucceeds, Expand, ExpandAll;
    SameAfterRebuild(e, s, taps);
    var (e1, s1) := Step(e, s, taps, ev);
    var fs := DestFilters(s1.(ips := ips));
    NothingDropped(e);
    AddKeepsOld(e, fs);
  }

  lemma NothingDropped(e: Engine)
    ensures DropIds(e, []) == e
  {
  }

  lemma {:induction false} AddKeepsOld(e: Engine, more: seq<Filter>)
    requires Fresh(e)
    ensures forall id :: id in e.filters ==>
      id in AddFilters(e, more).filters && AddFilters(e, more).filters[id] == e.filters[id]
    decreases |more|
  {
    if more != [] {
      AddKeepsOld(AddFilter(e, more[0]), more[1..]);
    }
  }

  // --- An update whose commit fails ---

  /** The engine is as before, but list and identifiers have moved on, as the result of the commit is not looked at. */
  function Uncommitted(e: Engine, s: State, ips: seq<IpRange>): State { Update(e, s, ips, true, true).1 }

  /** The books are right afterwards exactly when neither the old nor the new list asks for a destination filter. */
  lemma UncommittedUpdateKeepsBooksIff(e: Engine, s: State, taps: seq<Tap>, ips: seq<IpRange>)
    requires Inv(e, s, taps) && s.installed && ips != s.ips
    ensures Inv(e, Uncommitted(e, s, ips), taps) <==> DestFilters(s) == [] && DestFilters(s.(ips := ips)) == []
  {
    hide BaseFilters, DestFilters, Holds;
    var t := Uncommitted(e, s, ips);
    UpdateAccepted(s.(ips := ips));
    SameFilters(s, t, taps);
    SameFilters(s.(ips := ips), t, taps);
    var base :| HoldsWith(e, s, taps, base);
    HoldsLength(e, base + s.ids, AllFilters(s, taps));
    if DestFilters(t) != [] {
      forall ids ensures !HoldsWith(e, t, taps, ids) {
        UnknownId(e, ids + t.ids, AllFilters(t, taps), |ids|);
      }
    } else if DestFilters(s) != [] {
      forall ids ensures !HoldsWith(e, t, taps, ids) {
        if HoldsWith(e, t, taps, ids) {
          HoldsUpToOrder(e, Ipv6, base + s.ids, AllFilters(s, taps), AllFilters(t, taps));
          SameLength(AllFilters(s, taps), AllFilters(t, taps));
        }
      }
    } else {
      assert HoldsWith(e, t, taps, base);
    }
  }

  lemma SameLength(a: seq<Filter>, b: seq<Filter>)
    ensures multiset(a) == multiset(b) ==> |a| == |b|
  {
    assert |multiset(a)| == |a| && |multiset(b)| == |b|;
  }

  lemma UpdateAccepted(s: State)
    ensures UpdateSucceeds(s, true, true)
  {
  }

  lemma UnknownId(e: Engine, ids: seq<nat>, fs: seq<Filter>, k: nat)
    requires k < |ids| && ids[k] !in e.filters
    ensures !Holds(e, Ipv6, ids, fs)
  {
  }
}
