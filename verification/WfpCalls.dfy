/** The filter-adding helpers: conditions built one by one, one filter for each layer, identifiers recorded on
    success. */
module WfpCalls {
  import opened Wfp

  function LayerOf(v6: bool, i: nat): Layer
  {
    if v6 then (if i == 0 then ConnectV6 else AcceptV6) else (if i == 0 then ConnectV4 else AcceptV4)
  }

  /** The filters the first `n` layers of a call leave in the engine, which accepts or refuses each layer on its own. */
  function Landing(sub: Sublayer, a: Add, accepts: seq<bool>, n: nat): seq<Filter>
    requires n <= |accepts|
  {
    if n == 0 || Skipped(a) then []
    else Landing(sub, a, accepts, n - 1) + if accepts[n - 1] then [FilterAt(sub, a, LayerOf(IsV6(a), n - 1))] else []
  }

  predicate CallSucceeds(a: Add, accepts: seq<bool>) { Skipped(a) || forall i :: 0 <= i < |accepts| ==> accepts[i] }

  /** When both layers are accepted a call lands whole. */
  lemma LandingAll(sub: Sublayer, a: Add)
    ensures Landing(sub, a, [true, true], 2) == Expand(sub, a)
  {
    assert Landing(sub, a, [true, true], 2) == Landing(sub, a, [true, true], 1) +
      if Skipped(a) then [] else [FilterAt(sub, a, LayerOf(IsV6(a), 1))];
    assert Landing(sub, a, [true, true], 1) == Landing(sub, a, [true, true], 0) +
      if Skipped(a) then [] else [FilterAt(sub, a, LayerOf(IsV6(a), 0))];
  }

  lemma RangeConditionsFrom(v6: bool, ranges: seq<IpRange>, i: nat)
    requires i <= |ranges|
    ensures i == |ranges| ==> RangeConditions(v6, ranges[i..]) == []
    ensures i < |ranges| ==> (
      RangeConditions(v6, ranges[i..]) ==
      (if ranges[i].family == FamilyOf(v6) then [RemoteAddress(ranges[i])] else []) +
      RangeConditions(v6, ranges[i + 1..]))
    ensures ranges[0..] == ranges
  {
    if i < |ranges| {
      assert ranges[i..][1..] == ranges[i + 1..];
    }
  }

  method BuildRangeConditions(v6: bool, ranges: seq<IpRange>) returns (conditions: seq<Condition>)
    ensures conditions == RangeConditions(v6, ranges)
  {
    hide RangeConditions;
    RangeConditionsFrom(v6, ranges, 0);
    conditions := [];
    var i := 0;
    while i < |ranges|
      invariant 0 <= i <= |ranges|
      invariant RangeConditions(v6, ranges) == conditions + RangeConditions(v6, ranges[i..])
    {
      RangeConditionsFrom(v6, ranges, i);
      var r := ranges[i];
      i := i + 1;
      if r.family != FamilyOf(v6) {
        continue;
      }
      conditions := conditions + [RemoteAddress(r)];
    }
    RangeConditionsFrom(v6, ranges, i);
  }

  method PushAppConditions(before: seq<Condition>, apps: seq<nat>) returns (conditions: seq<Condition>)
    ensures conditions == before + AppConditions(apps)
  {
    conditions := before;
    var i := 0;
    while i < |apps|
      invariant 0 <= i <= |apps|
      invariant conditions == before + AppConditions(apps)[..i]
    {
      conditions := conditions + [App(apps[i])];
      i := i + 1;
    }
  }

  method BuildConditions(a: Add) returns (conditions: seq<Condition>)
    requires a.Add?
    ensures conditions == Conditions(a)
  {
    hide RangeConditions, AppConditions;
    conditions := [];
    if a.ranges.Some? {
      conditions := BuildRangeConditions(a.v6, a.ranges.value);
    }
    if a.luid.Some? {
      conditions := conditions + [LocalInterface(a.luid.value)];
    }
    if a.localPort != 0 {
      conditions := conditions + [LocalPort(a.localPort)];
    }
    if a.apps.Some? {
      conditions := PushAppConditions(conditions, a.apps.value);
    }
  }

  /** A range of the family is present. */
  method AnyOfFamily(v6: bool, ranges: seq<IpRange>) returns (found: bool)
    ensures found <==> RangeConditions(v6, ranges) != []
  {
    hide RangeConditions;
    RangeConditionsFrom(v6, ranges, 0);
    found := false;
    var i := 0;
    while i < |ranges| && !found
      invariant 0 <= i <= |ranges|
      invariant !found ==> RangeConditions(v6, ranges) == RangeConditions(v6, ranges[i..])
      invariant found ==> RangeConditions(v6, ranges) != []
    {
      RangeConditionsFrom(v6, ranges, i);
      if ranges[i].family == FamilyOf(v6) {
        found := true;
      }
      i := i + 1;
    }
    RangeConditionsFrom(v6, ranges, i);
  }

  /** Adds the filter of a call at both layers. A layer that fails is reported, and no identifier is recorded for it. */
  method AddFilterCall(e: Engine, sub: Sublayer, a: Add, ids: seq<nat>, accepts: seq<bool>)
    returns (e': Engine, ids': seq<nat>, success: bool)
    requires a.Add? && |accepts| == 2
    ensures e' == AddFilters(e, Landing(sub, a, accepts, 2))
    ensures ids' == ids + Ids(e.nextId, |Landing(sub, a, accepts, 2)|)
    ensures success == CallSucceeds(a, accepts)
  {
    hide AddFilters, AddFilter, Conditions, RangeConditions, Ids, Landing, LayerOf;
    e', ids', success := e, ids, true;
    NothingAdded(e);
    LandingStep(sub, a, accepts, 0);
    LandingStep(sub, a, accepts, 1);
    if a.ranges.Some? && a.ranges.value != [] {
      var any := AnyOfFamily(a.v6, a.ranges.value);
      if !any {
        return;
      }
    }
    var i := 0;
    while i < 2
      invariant 0 <= i <= 2
      invariant e' == AddFilters(e, Landing(sub, a, accepts, i))
      invariant ids' == ids + Ids(e.nextId, |Landing(sub, a, accepts, i)|)
      invariant success <==> forall k :: 0 <= k < i ==> accepts[k]
    {
      var conditions := BuildConditions(a);
      var filter := Filter(sub, LayerOf(a.v6, i), a.action, a.weight, conditions, a.persistent);
      AddFiltersLast(e, Landing(sub, a, accepts, i), filter);
      if !accepts[i] {
        success := false;
      } else {
        ids' := ids' + [e'.nextId];
        e' := AddFilter(e', filter);
      }
      i := i + 1;
    }
  }

  lemma LandingStep(sub: Sublayer, a: Add, accepts: seq<bool>, n: nat)
    requires n < |accepts|
    ensures Landing(sub, a, accepts, 0) == []
    ensures Skipped(a) ==> Landing(sub, a, accepts, n + 1) == []
    ensures !Skipped(a) && !accepts[n] ==> Landing(sub, a, accepts, n + 1) == Landing(sub, a, accepts, n)
    ensures !Skipped(a) && accepts[n] ==>
              Landing(sub, a, accepts, n + 1) == Landing(sub, a, accepts, n) + [FilterAt(sub, a, LayerOf(IsV6(a), n))]
  {
  }

  lemma NothingAdded(e: Engine)
    ensures AddFilters(e, []) == e && Ids(e.nextId, 0) == []
  {
  }

  lemma {:induction false} AddFiltersLast(e: Engine, fs: seq<Filter>, f: Filter)
    ensures AddFilters(e, fs + [f]) == AddFilter(AddFilters(e, fs), f)
    ensures AddFilters(e, fs).nextId == e.nextId + |fs|
    ensures Ids(e.nextId, |fs| + 1) == Ids(e.nextId, |fs|) + [e.nextId + |fs|]
    decreases |fs|
  {
    if fs == [] {
      assert fs + [f] == [f] && [f][1..] == fs;
    } else {
      assert (fs + [f])[1..] == fs[1..] + [f];
      AddFiltersLast(AddFilter(e, fs[0]), fs[1..], f);
    }
  }

  /** The ICMPv6 type-range permit at both layers; its identifiers are not recorded anywhere. */
  method AddIcmp6Call(e: Engine, sub: Sublayer, low: nat, high: nat, weight: nat, accepts: seq<bool>)
    returns (e': Engine, success: bool)
    requires |accepts| == 2
    ensures e' == AddFilters(e, Landing(sub, AddIcmp6(low, high, weight), accepts, 2))
    ensures success == CallSucceeds(AddIcmp6(low, high, weight), accepts)
  {
    hide AddFilters, AddFilter, Landing, LayerOf;
    ghost var a := AddIcmp6(low, high, weight);
    NothingAdded(e);
    LandingStep(sub, a, accepts, 0);
    LandingStep(sub, a, accepts, 1);
    e', success := e, true;
    var i := 0;
    while i < 2
      invariant 0 <= i <= 2
      invariant e' == AddFilters(e, Landing(sub, a, accepts, i))
      invariant success <==> forall k :: 0 <= k < i ==> accepts[k]
    {
      var filter := Filter(sub, LayerOf(true, i), Permit, weight, [Icmp6Type(low, high)], true);
      AddFiltersLast(e, Landing(sub, a, accepts, i), filter);
      if !accepts[i] {
        success := false;
      } else {
        e' := AddFilter(e', filter);
      }
      i := i + 1;
    }
  }

  lemma {:induction false} AddFiltersAppend(e: Engine, a: seq<Filter>, b: seq<Filter>)
    ensures AddFilters(e, a + b) == AddFilters(AddFilters(e, a), b)
    ensures AddFilters(e, a).nextId == e.nextId + |a| && AddFilters(e, a).sublayers == e.sublayers
    decreases |a|
  {
    if a == [] {
      assert a + b == b;
    } else {
      assert (a + b)[1..] == a[1..] + b;
      AddFiltersAppend(AddFilter(e, a[0]), a[1..], b);
    }
  }

  /** One call after the calls `done`, with every layer accepted; generic over the sublayer. */
  method AddNext(e: Engine, sub: Sublayer, a: Add, ghost e0: Engine, ghost done: seq<Add>) returns (e': Engine)
    requires e == AddFilters(e0, ExpandAll(sub, done))
    ensures e' == AddFilters(e0, ExpandAll(sub, done + [a]))
  {
    hide AddFilters, ExpandAll, Expand, Landing, CallSucceeds, Ids;
    LandingAll(sub, a);
    if a.Add? {
      var ids, success;
      e', ids, success := AddFilterCall(e, sub, a, [], [true, true]);
    } else {
      var success;
      e', success := AddIcmp6Call(e, sub, a.low, a.high, a.weight, [true, true]);
    }
    ExpandOne(sub, a);
    ExpandAppend(sub, done, [a]);
    AddFiltersAppend(e0, ExpandAll(sub, done), Expand(sub, a));
  }

  lemma ExpandOne(sub: Sublayer, a: Add)
    ensures ExpandAll(sub, [a]) == Expand(sub, a) && ExpandAll(sub, []) == []
  {
    assert [a][1..] == [];
  }

  /** Several calls in a row. */
  method AddInOrder(e: Engine, sub: Sublayer, adds: seq<Add>, ghost e0: Engine, ghost done: seq<Add>)
    returns (e': Engine)
    requires e == AddFilters(e0, ExpandAll(sub, done))
    ensures e' == AddFilters(e0, ExpandAll(sub, done + adds))
  {
    hide AddFilters, ExpandAll;
    e' := e;
    var i := 0;
    assert done + adds[..0] == done;
    while i < |adds|
      invariant 0 <= i <= |adds|
      invariant e' == AddFilters(e0, ExpandAll(sub, done + adds[..i]))
    {
      e' := AddNext(e', sub, adds[i], e0, done + adds[..i]);
      assert done + adds[..i] + [adds[i]] == done + adds[..i + 1];
      i := i + 1;
    }
    assert adds[..i] == adds;
  }

  /** Deletes filters one identifier at a time. */
  method RemoveById(e: Engine, ids: seq<nat>) returns (e': Engine)
    ensures e' == DropIds(e, ids)
  {
    e' := e;
    var i := 0;
    assert DropIds(e, ids[..0]) == e;
    while i < |ids|
      invariant 0 <= i <= |ids|
      invariant e' == DropIds(e, ids[..i])
    {
      assert ids[..i + 1] == ids[..i] + [ids[i]];
      e' := e'.(filters := e'.filters - {ids[i]});
      assert e'.filters == DropIds(e, ids[..i + 1]).filters;
      i := i + 1;
    }
    assert ids[..i] == ids;
  }

  /** The engine handle shared by the two firewalls, with its transactions. */
  class Fwpm {
    var engine: Engine
    var saved: Engine

    constructor (engine: Engine)
      ensures this.engine == engine
    {
      this.engine, saved := engine, engine;
    }

    method BeginTransaction()
      modifies this`saved
      ensures saved == engine
    {
      saved := engine;
    }

    method AbortTransaction()
      modifies this`engine
      ensures engine == saved
    {
      engine := saved;
    }
  }
}
