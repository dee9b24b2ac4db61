/** The Windows Filtering Platform as the helper uses it: filters in sublayers, what one filter matches, and which of
    the matching filters decides. */
module Wfp {
  import opened Text

  datatype Family = V4 | V6 | NoFamily

  /** An address range with its family; unparsable text has none. */
  datatype IpRange = IpRange(family: Family, lo: nat, hi: nat)

  datatype Sublayer = Main | Ipv6 | Other(id: nat)

  /** The two authorisation layers of each family. */
  datatype Layer = ConnectV4 | AcceptV4 | ConnectV6 | AcceptV6

  datatype Action = Permit | Block

  datatype Condition =
    | RemoteAddress(range: IpRange)
    | LocalInterface(luid: nat)
    | LocalPort(port: nat)
    | RemotePort(rport: nat)
    | App(app: nat)
    | Icmp6Type(low: nat, high: nat)

  datatype Filter = Filter(
    sublayer: Sublayer, layer: Layer, action: Action, weight: nat, conditions: seq<Condition>, persistent: bool)

  datatype Packet = Packet(
    layer: Layer, remote: nat, luid: nat, localPort: nat, remotePort: nat, app: nat, icmp6: Option<nat>)

  /** A tunnel adapter: whether it carries a routable IPv6 address, and its addresses. */
  datatype Tap = Tap(luid: nat, hasV6: bool, addresses: seq<IpRange>)

  const LOOPBACK := IpRange(V6, 1, 1)
  const LINK_LOCAL := IpRange(V6, 0xfe80_0000_0000_0000_0000_0000_0000_0000, 0xfebf_ffff_ffff_ffff_ffff_ffff_ffff_ffff)
  const UNIQUE_LOCAL :=
    IpRange(V6, 0xfc00_0000_0000_0000_0000_0000_0000_0000, 0xfdff_ffff_ffff_ffff_ffff_ffff_ffff_ffff)
  const MULTICAST := IpRange(V6, 0xff00_0000_0000_0000_0000_0000_0000_0000, 0xffff_ffff_ffff_ffff_ffff_ffff_ffff_ffff)

  // --- Matching ---

  predicate ConditionHolds(c: Condition, p: Packet)
  {
    match c
    case RemoteAddress(r) => r.lo <= p.remote <= r.hi
    case LocalInterface(luid) => p.luid == luid
    case LocalPort(port) => p.localPort == port
    case RemotePort(port) => p.remotePort == port
    case App(app) => p.app == app
    case Icmp6Type(low, high) => p.icmp6.Some? && low <= p.icmp6.value <= high
  }

  predicate SameField(c: Condition, d: Condition)
  {
    match c
    case RemoteAddress(_) => d.RemoteAddress?
    case LocalInterface(_) => d.LocalInterface?
    case LocalPort(_) => d.LocalPort?
    case RemotePort(_) => d.RemotePort?
    case App(_) => d.App?
    case Icmp6Type(_, _) => d.Icmp6Type?
  }

  /** Conditions on the same field are alternatives, conditions on different fields all have to hold. */
  predicate Matches(f: Filter, p: Packet)
  {
    f.layer == p.layer &&
    forall c :: c in f.conditions ==> exists d :: d in f.conditions && SameField(c, d) && ConditionHolds(d, p)
  }

  /** A matching filter with this action outranks every matching filter with the other one. */
  predicate Decides(fs: seq<Filter>, p: Packet, action: Action)
  {
    exists f :: f in fs && Matches(f, p) && f.action == action &&
      forall g :: g in fs && Matches(g, p) && g.action != action ==> g.weight < f.weight
  }

  // --- The calls that add filters ---

  /** One addFilterV4/addFilterV6 call, or one ICMPv6 type-range permit. Absent ranges and apps put no condition. */
  datatype Add =
    | Add(v6: bool, action: Action, weight: nat, luid: Option<nat>, ranges: Option<seq<IpRange>>, localPort: nat,
          apps: Option<seq<nat>>, persistent: bool)
    | AddIcmp6(low: nat, high: nat, weight: nat)

  function FamilyOf(v6: bool): Family { if v6 then V6 else V4 }

  function RangeConditions(v6: bool, ranges: seq<IpRange>): seq<Condition>
  {
    if ranges == [] then []
    else
      (if ranges[0].family == FamilyOf(v6) then [RemoteAddress(ranges[0])] else []) + RangeConditions(v6, ranges[1..])
  }

  function AppConditions(apps: seq<nat>): (cs: seq<Condition>)
    ensures |cs| == |apps| && forall k :: 0 <= k < |apps| ==> cs[k] == App(apps[k])
  {
    seq(|apps|, k requires 0 <= k < |apps| => App(apps[k]))
  }

  function Conditions(a: Add): seq<Condition>
  {
    match a
    case AddIcmp6(low, high, _) => [Icmp6Type(low, high)]
    case Add(v6, _, _, luid, ranges, localPort, apps, _) =>
      (if ranges.Some? then RangeConditions(v6, ranges.value) else []) +
      (if luid.Some? then [LocalInterface(luid.value)] else []) +
      (if localPort != 0 then [LocalPort(localPort)] else []) +
      (if apps.Some? then AppConditions(apps.value) else [])
  }

  /** Ranges were given but none is of the call's family: no filter rather than one without an address condition. */
  predicate Skipped(a: Add)
  {
    a.Add? && a.ranges.Some? && a.ranges.value != [] && RangeConditions(a.v6, a.ranges.value) == []
  }

  function IsV6(a: Add): bool { a.AddIcmp6? || a.v6 }

  function ActionOf(a: Add): Action { if a.AddIcmp6? then Permit else a.action }

  function FilterAt(sub: Sublayer, a: Add, layer: Layer): Filter
  {
    Filter(sub, layer, ActionOf(a), a.weight, Conditions(a), a.AddIcmp6? || a.persistent)
  }

  /** The filters of one call: the same one at both layers of the family. */
  function Expand(sub: Sublayer, a: Add): seq<Filter>
  {
    if Skipped(a) then []
    else if IsV6(a) then [FilterAt(sub, a, ConnectV6), FilterAt(sub, a, AcceptV6)]
    else [FilterAt(sub, a, ConnectV4), FilterAt(sub, a, AcceptV4)]
  }

  function ExpandAll(sub: Sublayer, adds: seq<Add>): seq<Filter>
  {
    if adds == [] then [] else Expand(sub, adds[0]) + ExpandAll(sub, adds[1..])
  }

  lemma {:induction false} ExpandAppend(sub: Sublayer, a: seq<Add>, b: seq<Add>)
    ensures ExpandAll(sub, a + b) == ExpandAll(sub, a) + ExpandAll(sub, b)
  {
    if a == [] {
      assert a + b == b;
    } else {
      assert (a + b)[1..] == a[1..] + b;
      ExpandAppend(sub, a[1..], b);
    }
  }

  lemma {:induction false} InExpandAll(sub: Sublayer, adds: seq<Add>, f: Filter)
    ensures f in ExpandAll(sub, adds) <==> exists a :: a in adds && f in Expand(sub, a)
  {
    if adds != [] {
      InExpandAll(sub, adds[1..], f);
      assert adds == [adds[0]] + adds[1..];
    }
  }

  // --- The engine ---

  datatype Engine = Engine(filters: map<nat, Filter>, sublayers: set<Sublayer>, nextId: nat)

  /** Identifiers are never reused. */
  predicate Fresh(e: Engine) { forall id :: id in e.filters ==> id < e.nextId }

  function AddFilter(e: Engine, f: Filter): Engine { e.(filters := e.filters[e.nextId := f], nextId := e.nextId + 1) }

  function AddFilters(e: Engine, fs: seq<Filter>): Engine
    decreases |fs|
  {
    if fs == [] then e else AddFilters(AddFilter(e, fs[0]), fs[1..])
  }

  function Ids(from: nat, n: nat): (ids: seq<nat>)
    ensures |ids| == n && forall k :: 0 <= k < n ==> ids[k] == from + k
  {
    seq(n, k requires 0 <= k < n => from + k)
  }

  lemma IdsLength(from: nat, n: nat)
    ensures |Ids(from, n)| == n
  {
  }

  /** Deletes the sublayer with every filter in it. */
  function DropSublayer(e: Engine, sub: Sublayer): Engine
  {
    e.(filters := map id | id in e.filters && e.filters[id].sublayer != sub :: e.filters[id],
       sublayers := e.sublayers - {sub})
  }

  function DropIds(e: Engine, ids: seq<nat>): Engine
  {
    e.(filters := map id | id in e.filters && id !in ids :: e.filters[id])
  }

  /** The filters of the sublayer are exactly `fs`, one each, under the distinct identifiers `ids`. */
  predicate Holds(e: Engine, sub: Sublayer, ids: seq<nat>, fs: seq<Filter>)
  {
    && |ids| == |fs|
    && (forall i, j :: 0 <= i < j < |ids| ==> ids[i] != ids[j])
    && (forall k :: 0 <= k < |ids| ==> ids[k] in e.filters && e.filters[ids[k]] == fs[k] && fs[k].sublayer == sub)
    && (forall id :: id in e.filters && e.filters[id].sublayer == sub ==> id in ids)
  }

  lemma HoldsOne(e: Engine, sub: Sublayer, ids: seq<nat>, fs: seq<Filter>, f: Filter)
    requires Fresh(e) && Holds(e, sub, ids, fs) && f.sublayer == sub
    ensures Fresh(AddFilter(e, f)) && Holds(AddFilter(e, f), sub, ids + [e.nextId], fs + [f])
  {
    var e' := AddFilter(e, f);
    forall id | id in e'.filters && e'.filters[id].sublayer == sub ensures id in ids + [e.nextId] {
      if id != e.nextId {
        assert id in e.filters && id in ids;
      }
    }
  }

  /** Adding a list of filters appends it, under fresh consecutive identifiers. */
  lemma {:induction false} HoldsMore(e: Engine, sub: Sublayer, ids: seq<nat>, fs: seq<Filter>, more: seq<Filter>)
    requires Fresh(e) && Holds(e, sub, ids, fs) && forall f :: f in more ==> f.sublayer == sub
    ensures Fresh(AddFilters(e, more)) && Holds(AddFilters(e, more), sub, ids + Ids(e.nextId, |more|), fs + more)
    decreases |more|
  {
    hide Holds, Fresh;
    if more == [] {
      assert ids + Ids(e.nextId, 0) == ids && fs + more == fs;
    } else {
      HoldsOne(e, sub, ids, fs, more[0]);
      HoldsMore(AddFilter(e, more[0]), sub, ids + [e.nextId], fs + [more[0]], more[1..]);
      assert ids + [e.nextId] + Ids(e.nextId + 1, |more| - 1) == ids + Ids(e.nextId, |more|);
      assert fs + [more[0]] + more[1..] == fs + more;
    }
  }

  /** Deleting the last identifiers leaves the filters before them. */
  lemma HoldsFewer(e: Engine, sub: Sublayer, ids: seq<nat>, fs: seq<Filter>, lastIds: seq<nat>, last: seq<Filter>)
    requires Fresh(e) && Holds(e, sub, ids + lastIds, fs + last) && |ids| == |fs|
    ensures Fresh(DropIds(e, lastIds)) && Holds(DropIds(e, lastIds), sub, ids, fs)
  {
    var all, allFs, e' := ids + lastIds, fs + last, DropIds(e, lastIds);
    forall k | 0 <= k < |ids| ensures ids[k] in e'.filters && e'.filters[ids[k]] == fs[k] && fs[k].sublayer == sub {
      assert all[k] == ids[k] && allFs[k] == fs[k];
      forall j | 0 <= j < |lastIds| ensures ids[k] != lastIds[j] {
        assert all[|ids| + j] == lastIds[j];
      }
    }
    forall i, j | 0 <= i < j < |ids| ensures ids[i] != ids[j] {
      assert all[i] == ids[i] && all[j] == ids[j];
    }
    forall id | id in e'.filters && e'.filters[id].sublayer == sub ensures id in ids {
      assert id in all;
    }
  }

  lemma {:induction false} ExpandSublayer(sub: Sublayer, adds: seq<Add>)
    ensures forall f :: f in ExpandAll(sub, adds) ==> f.sublayer == sub
  {
    if adds != [] {
      ExpandSublayer(sub, adds[1..]);
    }
  }

  lemma SwapAt<T>(a: seq<T>, b: seq<T>, c: seq<T>, k: nat)
    requires k < |a| + |b| + |c|
    ensures Swapped(|a|, |b|, |c|, k) < |a + b + c| && (a + c + b)[k] == (a + b + c)[Swapped(|a|, |b|, |c|, k)]
  {
  }

  lemma SwapTwice(a: nat, b: nat, c: nat, k: nat)
    requires k < a + b + c
    ensures Swapped(a, b, c, k) < a + b + c && Swapped(a, c, b, Swapped(a, b, c, k)) == k
  {
  }

  /** The order in which the identifiers are listed does not matter. */
  lemma HoldsSwap(e: Engine, sub: Sublayer, a: seq<nat>, b: seq<nat>, c: seq<nat>,
                  fa: seq<Filter>, fb: seq<Filter>, fc: seq<Filter>)
    requires Holds(e, sub, a + b + c, fa + fb + fc) && |a| == |fa| && |b| == |fb| && |c| == |fc|
    ensures Holds(e, sub, a + c + b, fa + fc + fb)
  {
    hide Swapped;
    var ids, fs, ids', fs' := a + b + c, fa + fb + fc, a + c + b, fa + fc + fb;
    forall k | 0 <= k < |ids'|
      ensures 0 <= Swapped(|a|, |b|, |c|, k) < |ids| && ids'[k] == ids[Swapped(|a|, |b|, |c|, k)] &&
              fs'[k] == fs[Swapped(|a|, |b|, |c|, k)]
    {
      SwapAt(a, b, c, k);
      SwapAt(fa, fb, fc, k);
    }
    forall i, j | 0 <= i < j < |ids'| ensures ids'[i] != ids'[j] {
      SwapTwice(|a|, |b|, |c|, i);
      SwapTwice(|a|, |b|, |c|, j);
    }
    forall id | id in ids ensures id in ids' {
      var k :| 0 <= k < |ids| && ids[k] == id;
      SwapAt(a, c, b, k);
      SwapTwice(|a|, |c|, |b|, k);
    }
  }

  /** Where position `k` of the list a, c, b stands in the list a, b, c. */
  function Swapped(a: nat, b: nat, c: nat, k: nat): nat
  {
    if k < a || a + b + c <= k then k else if k < a + c then k + b else k - c
  }

  /** The identifiers are exactly those of the listed filters, in order. */
  predicate Names(e: Engine, ids: seq<nat>, fs: seq<Filter>)
  {
    |ids| == |fs| && forall k :: 0 <= k < |ids| ==> ids[k] in e.filters && e.filters[ids[k]] == fs[k]
  }

  lemma NamesLast(e: Engine, sub: Sublayer, base: seq<nat>, ids: seq<nat>, fs: seq<Filter>, last: seq<Filter>)
    requires |base| == |fs| && Holds(e, sub, base + ids, fs + last)
    ensures Names(e, ids, last)
  {
    forall k | 0 <= k < |ids| ensures ids[k] in e.filters && e.filters[ids[k]] == last[k] {
      assert (base + ids)[|base| + k] == ids[k] && (fs + last)[|fs| + k] == last[k];
    }
  }

  // --- What an operation on one sublayer leaves alone ---

  /** The filters outside a sublayer. */
  function Rest(e: Engine, sub: Sublayer): map<nat, Filter>
  {
    map id | id in e.filters && e.filters[id].sublayer != sub :: e.filters[id]
  }

  lemma HoldsOfRest(e: Engine, e': Engine, changed: Sublayer, sub: Sublayer, ids: seq<nat>, fs: seq<Filter>)
    requires Rest(e, changed) == Rest(e', changed) && sub != changed && Holds(e, sub, ids, fs)
    ensures Holds(e', sub, ids, fs)
  {
    forall k | 0 <= k < |ids| ensures ids[k] in e'.filters && e'.filters[ids[k]] == fs[k] {
      assert ids[k] in Rest(e, changed);
      assert ids[k] in Rest(e', changed);
    }
    forall id | id in e'.filters && e'.filters[id].sublayer == sub ensures id in ids {
      assert id in Rest(e', changed);
      assert id in Rest(e, changed);
    }
  }

  lemma {:induction false} AddKeepsRest(e: Engine, sub: Sublayer, more: seq<Filter>)
    requires Fresh(e) && forall f :: f in more ==> f.sublayer == sub
    ensures Rest(AddFilters(e, more), sub) == Rest(e, sub) && AddFilters(e, more).sublayers == e.sublayers
    ensures Fresh(AddFilters(e, more)) && AddFilters(e, more).nextId == e.nextId + |more|
    decreases |more|
  {
    if more != [] {
      var e' := AddFilter(e, more[0]);
      assert Rest(e', sub) == Rest(e, sub);
      AddKeepsRest(e', sub, more[1..]);
    }
  }

  lemma DropIdsKeepsRest(e: Engine, sub: Sublayer, ids: seq<nat>)
    requires forall id :: id in ids && id in e.filters ==> e.filters[id].sublayer == sub
    ensures Rest(DropIds(e, ids), sub) == Rest(e, sub)
  {
  }
}
