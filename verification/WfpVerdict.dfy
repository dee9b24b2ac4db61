/** What a list of add calls decides about a packet, without looking at the filters they turn into. */
module WfpVerdict {
  import opened Text
  import opened Wfp

  predicate IsV6Layer(layer: Layer) { layer == ConnectV6 || layer == AcceptV6 }

  predicate InRanges(v6: bool, ranges: seq<IpRange>, remote: nat)
  {
    exists r :: r in ranges && r.family == FamilyOf(v6) && r.lo <= remote <= r.hi
  }

  /** The call covers the packet: one of its ranges of the right family, its interface, its port, one of its apps. */
  predicate Applies(a: Add, p: Packet)
  {
    IsV6Layer(p.layer) == IsV6(a) &&
    match a
    case AddIcmp6(low, high, _) => p.icmp6.Some? && low <= p.icmp6.value <= high
    case Add(v6, _, _, luid, ranges, localPort, apps, _) =>
      && (ranges.Some? && ranges.value != [] ==> InRanges(v6, ranges.value, p.remote))
      && (luid.Some? ==> p.luid == luid.value)
      && (localPort != 0 ==> p.localPort == localPort)
      && (apps.Some? && apps.value != [] ==> p.app in apps.value)
  }

  // --- Addresses and packets, written out ---

  predicate Loopback4(a: nat) { 0x7F00_0000 <= a <= 0x7FFF_FFFF }

  predicate Reserved4(a: nat) { 0x0AFF_FF00 <= a <= 0x0AFF_FFFF }

  /** 10/8, 172.16/12, 192.168/16, 169.254/16 and 224/4. */
  predicate Local4(a: nat)
  {
    || 0x0A00_0000 <= a <= 0x0AFF_FFFF
    || 0xAC10_0000 <= a <= 0xAC1F_FFFF
    || 0xC0A8_0000 <= a <= 0xC0A8_FFFF
    || 0xA9FE_0000 <= a <= 0xA9FE_FFFF
    || 0xE000_0000 <= a <= 0xEFFF_FFFF
  }

  predicate LinkLocal6(a: nat)
  {
    0xfe80_0000_0000_0000_0000_0000_0000_0000 <= a <= 0xfebf_ffff_ffff_ffff_ffff_ffff_ffff_ffff
  }

  /** fc00::/7 and ff00::/8. */
  predicate Local6(a: nat)
  {
    || 0xfc00_0000_0000_0000_0000_0000_0000_0000 <= a <= 0xfdff_ffff_ffff_ffff_ffff_ffff_ffff_ffff
    || 0xff00_0000_0000_0000_0000_0000_0000_0000 <= a <= 0xffff_ffff_ffff_ffff_ffff_ffff_ffff_ffff
  }

  /** ICMPv6 neighbour, router or multicast-listener discovery. */
  predicate Discovery(p: Packet)
  {
    p.icmp6.Some? && (130 <= p.icmp6.value <= 137 || p.icmp6.value == 143)
  }

  predicate OnTunnel(taps: seq<Tap>, p: Packet) { exists tap :: tap in taps && tap.luid == p.luid }

  /** On a tunnel adapter that carries a routable IPv6 address. */
  predicate OnV6Tunnel(taps: seq<Tap>, p: Packet) { exists tap :: tap in taps && tap.luid == p.luid && tap.hasV6 }

  // --- Decisions of call lists ---

  predicate AddsDecide(adds: seq<Add>, p: Packet, action: Action)
  {
    exists a :: a in adds && Applies(a, p) && ActionOf(a) == action &&
      forall b :: b in adds && Applies(b, p) && ActionOf(b) != action ==> b.weight < a.weight
  }

  lemma {:induction false} InRangeConditions(v6: bool, ranges: seq<IpRange>, c: Condition)
    ensures c in RangeConditions(v6, ranges) <==>
      c.RemoteAddress? && c.range in ranges && c.range.family == FamilyOf(v6)
  {
    if ranges != [] {
      InRangeConditions(v6, ranges[1..], c);
    }
  }

  /** A conjunction over the four fields a call can constrain. */
  lemma InConditions(a: Add, c: Condition)
    requires a.Add?
    ensures c in Conditions(a) <==>
      match c
      case RemoteAddress(r) => a.ranges.Some? && r in a.ranges.value && r.family == FamilyOf(a.v6)
      case LocalInterface(luid) => a.luid == Some(luid)
      case LocalPort(port) => a.localPort != 0 && port == a.localPort
      case RemotePort(_) => false
      case App(app) => a.apps.Some? && app in a.apps.value
      case Icmp6Type(_, _) => false
  {
    hide RangeConditions, AppConditions;
    if a.ranges.Some? {
      InRangeConditions(a.v6, a.ranges.value, c);
    }
    if a.apps.Some? {
      InAppConditions(a.apps.value, c);
    }
  }

  lemma InAppConditions(apps: seq<nat>, c: Condition)
    ensures c in AppConditions(apps) <==> c.App? && c.app in apps
  {
    if c.App? && c.app in apps {
      var k :| 0 <= k < |apps| && apps[k] == c.app;
      assert AppConditions(apps)[k] == c;
    }
  }

  lemma ConditionsHold(a: Add, p: Packet)
    requires a.Add? && !Skipped(a)
    ensures (forall c :: c in Conditions(a) ==>
              exists d :: d in Conditions(a) && SameField(c, d) && ConditionHolds(d, p))
      <==> (&& (a.ranges.Some? && a.ranges.value != [] ==> InRanges(a.v6, a.ranges.value, p.remote))
            && (a.luid.Some? ==> p.luid == a.luid.value)
            && (a.localPort != 0 ==> p.localPort == a.localPort)
            && (a.apps.Some? && a.apps.value != [] ==> p.app in a.apps.value))
  {
    hide Conditions, RangeConditions;
    forall c ensures c in Conditions(a) <==>
      match c
      case RemoteAddress(r) => a.ranges.Some? && r in a.ranges.value && r.family == FamilyOf(a.v6)
      case LocalInterface(luid) => a.luid == Some(luid)
      case LocalPort(port) => a.localPort != 0 && port == a.localPort
      case RemotePort(_) => false
      case App(app) => a.apps.Some? && app in a.apps.value
      case Icmp6Type(_, _) => false
    {
      InConditions(a, c);
    }
    if a.ranges.Some? && a.ranges.value != [] {
      RangesCondition(a, p);
    }
    if a.luid.Some? {
      assert LocalInterface(a.luid.value) in Conditions(a);
    }
    if a.localPort != 0 {
      assert LocalPort(a.localPort) in Conditions(a);
    }
    if a.apps.Some? && a.apps.value != [] {
      assert App(a.apps.value[0]) in Conditions(a);
      assert p.app in a.apps.value ==> App(p.app) in Conditions(a);
    }
  }

  /** The address conditions are present, and one of them holds exactly when the packet is in one of the ranges. */
  lemma RangesCondition(a: Add, p: Packet)
    requires a.Add? && !Skipped(a) && a.ranges.Some? && a.ranges.value != []
    ensures exists c :: c in Conditions(a) && c.RemoteAddress?
    ensures InRanges(a.v6, a.ranges.value, p.remote) <==>
      exists d :: d in Conditions(a) && d.RemoteAddress? && ConditionHolds(d, p)
  {
    hide Conditions, RangeConditions;
    var cs := RangeConditions(a.v6, a.ranges.value);
    var c := cs[0];
    InRangeConditions(a.v6, a.ranges.value, c);
    InConditions(a, c);
    if InRanges(a.v6, a.ranges.value, p.remote) {
      var r :| r in a.ranges.value && r.family == FamilyOf(a.v6) && r.lo <= p.remote <= r.hi;
      InConditions(a, RemoteAddress(r));
      assert ConditionHolds(RemoteAddress(r), p);
    }
    forall d | d in Conditions(a) && d.RemoteAddress? && ConditionHolds(d, p)
      ensures InRanges(a.v6, a.ranges.value, p.remote)
    {
      InConditions(a, d);
    }
  }

  /** A filter of the call matches the packet exactly when the call covers it. */
  lemma ExpandApplies(sub: Sublayer, a: Add, p: Packet)
    ensures (exists f :: f in Expand(sub, a) && Matches(f, p)) <==> Applies(a, p)
    ensures forall f :: f in Expand(sub, a) ==> f.action == ActionOf(a) && f.weight == a.weight
  {
    hide Conditions, RangeConditions;
    if Skipped(a) {
      SkippedCoversNothing(a, p);
    } else {
      MatchesAt(sub, a, p);
      if IsV6Layer(p.layer) == IsV6(a) {
        assert FilterAt(sub, a, p.layer) in Expand(sub, a);
      }
    }
  }

  lemma MatchesAt(sub: Sublayer, a: Add, p: Packet)
    requires !Skipped(a)
    ensures IsV6Layer(p.layer) == IsV6(a) ==> (Matches(FilterAt(sub, a, p.layer), p) <==> Applies(a, p))
  {
    hide RangeConditions;
    if a.Add? {
      hide Conditions;
      ConditionsHold(a, p);
    } else {
      var c := Icmp6Type(a.low, a.high);
      assert Conditions(a) == [c];
      assert c in FilterAt(sub, a, p.layer).conditions && SameField(c, c);
    }
  }

  lemma SkippedCoversNothing(a: Add, p: Packet)
    requires Skipped(a)
    ensures !Applies(a, p)
  {
    hide RangeConditions;
    if InRanges(a.v6, a.ranges.value, p.remote) {
      var r :| r in a.ranges.value && r.family == FamilyOf(a.v6);
      InRangeConditions(a.v6, a.ranges.value, RemoteAddress(r));
    }
  }

  /** The decision of a sublayer's filter list, read off the calls that built it. */
  lemma DecidesByAdds(sub: Sublayer, adds: seq<Add>, p: Packet, action: Action)
    ensures Decides(ExpandAll(sub, adds), p, action) <==> AddsDecide(adds, p, action)
  {
    hide Expand, ExpandAll, Applies, Matches;
    if AddsDecide(adds, p, action) {
      CallDecides(sub, adds, p, action);
    }
    if Decides(ExpandAll(sub, adds), p, action) {
      FilterDecides(sub, adds, p, action);
    }
  }

  lemma CallDecides(sub: Sublayer, adds: seq<Add>, p: Packet, action: Action)
    requires AddsDecide(adds, p, action)
    ensures Decides(ExpandAll(sub, adds), p, action)
  {
    hide Expand, ExpandAll, Applies, Matches;
    var a :| a in adds && Applies(a, p) && ActionOf(a) == action &&
      forall b :: b in adds && Applies(b, p) && ActionOf(b) != action ==> b.weight < a.weight;
    ExpandApplies(sub, a, p);
    var f :| f in Expand(sub, a) && Matches(f, p);
    InExpandAll(sub, adds, f);
    forall g | g in ExpandAll(sub, adds) && Matches(g, p) && g.action != action ensures g.weight < f.weight {
      InExpandAll(sub, adds, g);
      var b :| b in adds && g in Expand(sub, b);
      ExpandApplies(sub, b, p);
    }
  }

  lemma FilterDecides(sub: Sublayer, adds: seq<Add>, p: Packet, action: Action)
    requires Decides(ExpandAll(sub, adds), p, action)
    ensures AddsDecide(adds, p, action)
  {
    hide Expand, ExpandAll, Applies, Matches;
    var fs := ExpandAll(sub, adds);
    var f :| f in fs && Matches(f, p) && f.action == action &&
      forall g :: g in fs && Matches(g, p) && g.action != action ==> g.weight < f.weight;
    InExpandAll(sub, adds, f);
    var a :| a in adds && f in Expand(sub, a);
    ExpandApplies(sub, a, p);
    forall b | b in adds && Applies(b, p) && ActionOf(b) != action ensures b.weight < a.weight {
      ExpandApplies(sub, b, p);
      var g :| g in Expand(sub, b) && Matches(g, p);
      InExpandAll(sub, adds, g);
    }
  }

  // --- The greatest weights ---

  function Other(action: Action): Action { if action == Permit then Block else Permit }

  function Greater(a: int, b: int): int { if a < b then b else a }

  function TopOf(a: Add, p: Packet, action: Action): int
  {
    if Applies(a, p) && ActionOf(a) == action then a.weight else -1
  }

  /** The greatest weight among the calls with this action that cover the packet; -1 if there is none. */
  function Top(adds: seq<Add>, p: Packet, action: Action): int
  {
    if adds == [] then -1 else Greater(TopOf(adds[0], p, action), Top(adds[1..], p, action))
  }

  lemma {:induction false} TopAppend(a: seq<Add>, b: seq<Add>, p: Packet, action: Action)
    ensures Top(a + b, p, action) == Greater(Top(a, p, action), Top(b, p, action))
    ensures -1 <= Top(a, p, action) && -1 <= Top(b, p, action)
  {
    hide TopOf;
    TopIsGreatest(a, p, action);
    TopIsGreatest(b, p, action);
    if a == [] {
      assert a + b == b;
    } else {
      assert (a + b)[1..] == a[1..] + b;
      TopAppend(a[1..], b, p, action);
    }
  }

  lemma {:induction false} TopIsGreatest(adds: seq<Add>, p: Packet, action: Action)
    ensures -1 <= Top(adds, p, action)
    ensures forall a :: a in adds ==> TopOf(a, p, action) <= Top(adds, p, action)
    ensures Top(adds, p, action) == -1 || exists a :: a in adds && TopOf(a, p, action) == Top(adds, p, action)
  {
    hide Applies;
    if adds != [] {
      TopIsGreatest(adds[1..], p, action);
    }
  }

  lemma TopTwo(a: Add, b: Add, p: Packet, action: Action)
    ensures Top([a, b], p, action) == Greater(TopOf(a, p, action), TopOf(b, p, action))
  {
    hide Applies;
    assert [a] + [b] == [a, b];
    TopAppend([a], [b], p, action);
  }

  /** A list of calls decides by its greatest weights; with equal ones it decides nothing. */
  lemma DecidesByTop(adds: seq<Add>, p: Packet, action: Action)
    ensures AddsDecide(adds, p, action) <==> Top(adds, p, action) > Top(adds, p, Other(action))
  {
    hide Applies, Top;
    TopIsGreatest(adds, p, action);
    TopIsGreatest(adds, p, Other(action));
    if Top(adds, p, action) > Top(adds, p, Other(action)) {
      var a :| a in adds && TopOf(a, p, action) == Top(adds, p, action);
      forall b | b in adds && Applies(b, p) && ActionOf(b) != action ensures b.weight < a.weight {
        assert TopOf(b, p, Other(action)) == b.weight;
      }
    }
    if AddsDecide(adds, p, action) {
      var a :| a in adds && Applies(a, p) && ActionOf(a) == action &&
        forall b :: b in adds && Applies(b, p) && ActionOf(b) != action ==> b.weight < a.weight;
      assert TopOf(a, p, action) == a.weight;
    }
  }

  // --- Verdicts of the engine ---

  predicate MatchesIn(e: Engine, sub: Sublayer, p: Packet, id: nat)
  {
    id in e.filters && e.filters[id].sublayer == sub && Matches(e.filters[id], p)
  }

  /** In the filters of one sublayer, a matching one with this action outranks every matching one with the other. */
  ghost predicate SublayerDecides(e: Engine, sub: Sublayer, p: Packet, action: Action)
  {
    exists id ::
      && MatchesIn(e, sub, p, id)
      && e.filters[id].action == action
      && forall o :: MatchesIn(e, sub, p, o) && e.filters[o].action != action ==>
           e.filters[o].weight < e.filters[id].weight
  }

  lemma HoldsDecides(e: Engine, sub: Sublayer, ids: seq<nat>, fs: seq<Filter>, p: Packet, action: Action)
    requires Holds(e, sub, ids, fs)
    ensures SublayerDecides(e, sub, p, action) <==> Decides(fs, p, action)
  {
    hide Matches;
    forall o | o in e.filters && e.filters[o].sublayer == sub ensures e.filters[o] in fs {
      var j :| 0 <= j < |ids| && ids[j] == o;
      assert fs[j] == e.filters[o];
    }
    forall g | g in fs && Matches(g, p) ensures exists o :: MatchesIn(e, sub, p, o) && e.filters[o] == g {
      var k :| 0 <= k < |fs| && fs[k] == g;
      assert MatchesIn(e, sub, p, ids[k]);
    }
  }

  /** A sublayer never decides both ways. */
  lemma DecidesOnce(e: Engine, sub: Sublayer, p: Packet)
    ensures !(SublayerDecides(e, sub, p, Permit) && SublayerDecides(e, sub, p, Block))
  {
    hide Matches;
  }

  /** Block filters clear the action right, so a block decided in any sublayer is final. */
  ghost predicate Blocked(e: Engine, p: Packet)
  {
    SublayerDecides(e, Main, p, Block) || SublayerDecides(e, Ipv6, p, Block)
  }

  ghost predicate Passes(e: Engine, p: Packet)
  {
    SublayerDecides(e, Main, p, Permit) && SublayerDecides(e, Ipv6, p, Permit)
  }
}
