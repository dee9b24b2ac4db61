/** The IPv6 sublayer: what a build puts in it, and what every run of rebuilds and incremental updates keeps. */
module Ipv6Run {
  import opened Text
  import opened Wfp
  import opened WfpCalls
  import opened WfpOrder

  datatype Mode = Disabled | Inclusive | Exclusive

  datatype State = State(
    installed: bool, allowLan: bool, custom: bool, mode: Mode, apps: seq<nat>, ips: seq<IpRange>, ids: seq<nat>)

  // --- What a build adds ---

  function All(action: Action, weight: nat): Add { Add(true, action, weight, None, None, 0, None, true) }

  function To(action: Action, weight: nat, ranges: seq<IpRange>): Add
  {
    Add(true, action, weight, None, Some(ranges), 0, None, true)
  }

  function ForApps(action: Action, weight: nat, apps: seq<nat>): Add
  {
    Add(true, action, weight, None, None, 0, Some(apps), true)
  }

  function TunnelPermits(taps: seq<Tap>, weight: nat): seq<Add>
  {
    if taps == [] then []
    else
      (if taps[0].hasV6 then [Add(true, Permit, weight, Some(taps[0].luid), None, 0, None, true)] else []) +
      TunnelPermits(taps[1..], weight)
  }

  function Essentials(): seq<Add>
  {
    [To(Permit, 4, [LOOPBACK]), To(Permit, 4, [LINK_LOCAL]), AddIcmp6(130, 137, 4), AddIcmp6(143, 143, 4)]
  }

  function LanAdds(s: State): seq<Add>
  {
    if s.allowLan || s.custom then [To(Permit, 4, [UNIQUE_LOCAL, MULTICAST])] else []
  }

  function ModeAdds(s: State, taps: seq<Tap>): seq<Add>
  {
    match s.mode
    case Disabled => []
    case Inclusive =>
      [All(Permit, 2)] + if s.apps == [] then [] else [ForApps(Block, 3, s.apps)] + TunnelPermits(taps, 4)
    case Exclusive => if s.apps == [] then [] else [ForApps(Permit, 2, s.apps)]
  }

  /** Everything a build adds before the destination filters, in order. */
  function BaseAdds(s: State, taps: seq<Tap>): seq<Add>
  {
    [All(Block, 0)] + TunnelPermits(taps, 0) + Essentials() + LanAdds(s) + ModeAdds(s, taps)
  }

  function DestAdd(s: State): Add { if s.mode == Inclusive then To(Block, 3, s.ips) else To(Permit, 2, s.ips) }

  /** The filters for the split-tunnelling destinations. */
  function DestFilters(s: State): seq<Filter>
  {
    if s.mode == Disabled || s.ips == [] then [] else Expand(Ipv6, DestAdd(s))
  }

  function BaseFilters(s: State, taps: seq<Tap>): seq<Filter> { ExpandAll(Ipv6, BaseAdds(s, taps)) }

  // --- Steps ---

  datatype Event =
    | Disable(allowLan: bool, custom: bool, subOk: bool)
    | Enable
    | SetMode(mode: Mode, apps: seq<nat>, subOk: bool)
    | SetIps(ips: seq<IpRange>, okConnect: bool, okAccept: bool)

  /** Filters from scratch. Without the sublayer the transaction is aborted, but the list of identifiers is gone. */
  function Rebuild(e: Engine, s: State, taps: seq<Tap>, subOk: bool): (Engine, State)
  {
    if !subOk then (e, s.(ids := []))
    else
      var cleared := DropSublayer(e, Ipv6);
      var e1 := AddFilters(cleared.(sublayers := cleared.sublayers + {Ipv6}), BaseFilters(s, taps));
      (AddFilters(e1, DestFilters(s)), s.(installed := true, ids := Ids(e1.nextId, |DestFilters(s)|)))
  }

  predicate UpdateSucceeds(s: State, okConnect: bool, okAccept: bool)
  {
    s.mode == Disabled || s.ips == [] || CallSucceeds(DestAdd(s), [okConnect, okAccept])
  }

  /** The destination filters of the new list instead of the recorded ones; all or nothing. */
  function Update(e: Engine, s: State, ips: seq<IpRange>, okConnect: bool, okAccept: bool): (Engine, State)
  {
    var s' := s.(ips := ips);
    if ips == s.ips then (e, s)
    else if !s.installed then (e, s')
    else if !UpdateSucceeds(s', okConnect, okAccept) then (e, s)
    else
      var dropped := DropIds(e, s.ids);
      (AddFilters(dropped, DestFilters(s')), s'.(ids := Ids(dropped.nextId, |DestFilters(s')|)))
  }

  function Step(e: Engine, s: State, taps: seq<Tap>, ev: Event): (Engine, State)
  {
    match ev
    case Disable(allowLan, custom, subOk) => Rebuild(e, s.(allowLan := allowLan, custom := custom), taps, subOk)
    case Enable => if s.installed then (DropSublayer(e, Ipv6), s.(installed := false, ids := [])) else (e, s)
    case SetMode(mode, apps, subOk) =>
      if mode == s.mode && apps == s.apps then (e, s)
      else if s.installed then Rebuild(e, s.(mode := mode, apps := apps), taps, subOk)
      else (e, s.(mode := mode, apps := apps))
    case SetIps(ips, okConnect, okAccept) => Update(e, s, ips, okConnect, okAccept)
  }

  predicate RebuildsSucceed(ev: Event)
  {
    (ev.Disable? ==> ev.subOk) && (ev.SetMode? ==> ev.subOk)
  }

  // --- The invariant ---

  /** The sublayer holds what a build from the current state adds, the recorded identifiers naming the last part. */
  predicate HoldsWith(e: Engine, s: State, taps: seq<Tap>, base: seq<nat>)
  {
    |base| == |BaseFilters(s, taps)| && Holds(e, Ipv6, base + s.ids, BaseFilters(s, taps) + DestFilters(s))
  }

  ghost predicate Inv(e: Engine, s: State, taps: seq<Tap>)
  {
    && Fresh(e)
    && (!s.installed ==> s.ids == [])
    && (s.installed ==> Ipv6 in e.sublayers && exists base :: HoldsWith(e, s, taps, base))
  }

  lemma OnlyIpv6(s: State, taps: seq<Tap>)
    ensures forall f :: f in BaseFilters(s, taps) ==> f.sublayer == Ipv6
    ensures forall f :: f in DestFilters(s) ==> f.sublayer == Ipv6
  {
    hide BaseAdds, DestAdd;
    ExpandSublayer(Ipv6, BaseAdds(s, taps));
  }

  lemma RebuildHolds(e: Engine, s: State, taps: seq<Tap>)
    requires Fresh(e)
    ensures var (e', s') := Rebuild(e, s, taps, true); Inv(e', s', taps) && s'.installed
    ensures Rest(Rebuild(e, s, taps, true).0, Ipv6) == Rest(e, Ipv6)
    ensures Rebuild(e, s, taps, true).0.sublayers == e.sublayers + {Ipv6}
  {
    hide AddFilters, Holds, BaseFilters, DestFilters, Fresh, Rest, DropSublayer, Ids;
    OnlyIpv6(s, taps);
    var e0 := WithSublayer(DropSublayer(e, Ipv6));
    ClearedHolds(e);
    var base, dest := BaseFilters(s, taps), DestFilters(s);
    HoldsMore(e0, Ipv6, [], [], base);
    AddKeepsRest(e0, Ipv6, base);
    var e1 := AddFilters(e0, base);
    var baseIds := Ids(e0.nextId, |base|);
    assert [] + baseIds == baseIds && [] + base == base;
    HoldsMore(e1, Ipv6, baseIds, base, dest);
    AddKeepsRest(e1, Ipv6, dest);
    IdsLength(e0.nextId, |base|);
    assert HoldsWith(Rebuild(e, s, taps, true).0, Rebuild(e, s, taps, true).1, taps, baseIds) by {
      SameFilters(s, s.(installed := true, ids := Ids(e1.nextId, |dest|)), taps);
    }
  }

  function WithSublayer(e: Engine): Engine { e.(sublayers := e.sublayers + {Ipv6}) }

  lemma ClearedHolds(e: Engine)
    requires Fresh(e)
    ensures var e0 := WithSublayer(DropSublayer(e, Ipv6));
      Fresh(e0) && Holds(e0, Ipv6, [], []) && Rest(e0, Ipv6) == Rest(e, Ipv6) && e0.sublayers == e.sublayers + {Ipv6}
  {
  }

  /** The filters depend on the settings alone. */
  lemma SameFilters(s: State, t: State, taps: seq<Tap>)
    requires s.allowLan == t.allowLan && s.custom == t.custom && s.mode == t.mode && s.apps == t.apps
    ensures BaseFilters(s, taps) == BaseFilters(t, taps)
    ensures s.ips == t.ips ==> DestFilters(s) == DestFilters(t)
  {
    hide TunnelPermits, ExpandAll, Expand;
  }

  /** An incremental update is all or nothing. */
  lemma UpdateHolds(e: Engine, s: State, taps: seq<Tap>, ips: seq<IpRange>, okConnect: bool, okAccept: bool)
    requires Inv(e, s, taps)
    ensures var (e', s') := Update(e, s, ips, okConnect, okAccept);
      && Inv(e', s', taps)
      && Rest(e', Ipv6) == Rest(e, Ipv6) && e'.sublayers == e.sublayers
      && s' == s.(ips := s'.ips, ids := s'.ids)
      && (if !s.installed || UpdateSucceeds(s.(ips := ips), okConnect, okAccept) then s'.ips == ips
          else (e', s') == (e, s))
  {
    hide AddFilters, Holds, BaseFilters, DestFilters, Rest, DropIds, Ids, UpdateSucceeds;
    var s1 := s.(ips := ips);
    if ips != s.ips && s.installed && UpdateSucceeds(s1, okConnect, okAccept) {
      var base :| HoldsWith(e, s, taps, base);
      OnlyIpv6(s, taps);
      OnlyIpv6(s1, taps);
      SameFilters(s, s1, taps);
      var bf, was, dest := BaseFilters(s, taps), DestFilters(s), DestFilters(s1);
      HoldsFewer(e, Ipv6, base, bf, s.ids, was);
      NamesOwn(e, base + s.ids, bf + was);
      assert forall id :: id in s.ids ==> id in base + s.ids;
      DropIdsKeepsRest(e, Ipv6, s.ids);
      var dropped := DropIds(e, s.ids);
      assert dropped.sublayers == e.sublayers by { DropIdsSublayers(e, s.ids); }
      HoldsMore(dropped, Ipv6, base, bf, dest);
      AddKeepsRest(dropped, Ipv6, dest);
      var s2 := s1.(ids := Ids(dropped.nextId, |dest|));
      SameFilters(s1, s2, taps);
      assert HoldsWith(AddFilters(dropped, dest), s2, taps, base);
    } else if !s.installed {
      SameFilters(s, s1, taps);
    }
  }

  lemma DropIdsSublayers(e: Engine, ids: seq<nat>)
    ensures DropIds(e, ids).sublayers == e.sublayers
  {
  }

  lemma NamesOwn(e: Engine, ids: seq<nat>, fs: seq<Filter>)
    requires Holds(e, Ipv6, ids, fs)
    ensures forall id :: id in ids && id in e.filters ==> e.filters[id].sublayer == Ipv6
  {
  }

  // --- Runs ---

  const INITIAL := State(false, false, false, Disabled, [], [], [])

  lemma StepKeeps(e: Engine, s: State, taps: seq<Tap>, ev: Event)
    requires Inv(e, s, taps) && RebuildsSucceed(ev)
    ensures var (e', s') := Step(e, s, taps, ev);
      Inv(e', s', taps) && Rest(e', Ipv6) == Rest(e, Ipv6) && e'.sublayers - {Ipv6} == e.sublayers - {Ipv6}
  {
    hide HoldsWith, Rebuild, Update, Rest, Fresh;
    match ev
    case Disable(allowLan, custom, _) =>
      RebuildHolds(e, s.(allowLan := allowLan, custom := custom), taps);
    case Enable =>
      ClearedHolds(e);
      DroppedRest(e);
    case SetMode(mode, apps, _) =>
      RebuildHolds(e, s.(mode := mode, apps := apps), taps);
    case SetIps(ips, okConnect, okAccept) =>
      UpdateHolds(e, s, taps, ips, okConnect, okAccept);
  }

  lemma DroppedRest(e: Engine)
    ensures Rest(DropSublayer(e, Ipv6), Ipv6) == Rest(e, Ipv6)
    ensures DropSublayer(e, Ipv6).sublayers == e.sublayers - {Ipv6}
    ensures Fresh(e) ==> Fresh(DropSublayer(e, Ipv6))
  {
  }

  function Run(e: Engine, s: State, taps: seq<Tap>, events: seq<Event>): (Engine, State)
    decreases |events|
  {
    if events == [] then (e, s)
    else
      var (e', s') := Step(e, s, taps, events[0]);
      Run(e', s', taps, events[1..])
  }

  lemma {:induction false} RunKeeps(e: Engine, s: State, taps: seq<Tap>, events: seq<Event>)
    requires Inv(e, s, taps) && forall ev :: ev in events ==> RebuildsSucceed(ev)
    ensures var (e', s') := Run(e, s, taps, events); Inv(e', s', taps) && Rest(e', Ipv6) == Rest(e, Ipv6)
    decreases |events|
  {
    hide Inv, Step, Rest;
    if events != [] {
      StepKeeps(e, s, taps, events[0]);
      var (e', s') := Step(e, s, taps, events[0]);
      RunKeeps(e', s', taps, events[1..]);
    }
  }

  /** While the block is installed the sublayer is what a fresh build from the current state would install, and the
      recorded identifiers name exactly the destination filters, whatever rebuilds and updates led there. */
  lemma RunEqualsFreshBuild(e: Engine, taps: seq<Tap>, events: seq<Event>)
    requires Fresh(e) && forall ev :: ev in events ==> RebuildsSucceed(ev)
    ensures var (e', s') := Run(e, INITIAL, taps, events);
      s'.installed ==> SameSublayer(e', Rebuild(e', s', taps, true).0, Ipv6) && Names(e', s'.ids, DestFilters(s'))
  {
    hide Run, Rebuild, BaseFilters, DestFilters;
    RunKeeps(e, INITIAL, taps, events);
    var (e', s') := Run(e, INITIAL, taps, events);
    if s'.installed {
      RebuildHolds(e', s', taps);
      SameAfterRebuild(e', s', taps);
    }
  }

  lemma SameAfterRebuild(e: Engine, s: State, taps: seq<Tap>)
    requires Inv(e, s, taps) && s.installed
    ensures SameSublayer(e, Rebuild(e, s, taps, true).0, Ipv6) && Names(e, s.ids, DestFilters(s))
  {
    hide Holds, BaseFilters, DestFilters, AddFilters, DropSublayer, Ids;
    RebuildHolds(e, s, taps);
    var (f, t) := Rebuild(e, s, taps, true);
    SameFilters(s, t, taps);
    var base :| HoldsWith(e, s, taps, base);
    var base' :| HoldsWith(f, t, taps, base');
    NamesLast(e, Ipv6, base, s.ids, BaseFilters(s, taps), DestFilters(s));
  }
}
