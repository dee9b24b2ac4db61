/** The contents of a sublayer as a multiset: which lists of filters describe the same sublayer. */
module WfpOrder {
  import opened Wfp

  predicate Distinct(ids: seq<nat>) { forall i, j :: 0 <= i < j < |ids| ==> ids[i] != ids[j] }

  function Without<T>(s: seq<T>, k: nat): (r: seq<T>)
    requires k < |s|
    ensures |r| == |s| - 1 && multiset(s) == multiset(r) + multiset{s[k]}
  {
    assert s == s[..k] + [s[k]] + s[k + 1..];
    s[..k] + s[k + 1..]
  }

  /** Taking one identifier out of a list of distinct ones. */
  lemma WithoutId(ids: seq<nat>, k: nat)
    requires k < |ids| && Distinct(ids)
    ensures Distinct(Without(ids, k)) && ids[k] !in Without(ids, k)
    ensures forall id :: id in Without(ids, k) <==> id in ids && id != ids[k]
  {
    var r := Without(ids, k);
    forall id | id in ids && id != ids[k] ensures id in r {
      var j :| 0 <= j < |ids| && ids[j] == id;
      assert if j < k then r[j] == id else r[j - 1] == id;
    }
  }

  lemma WithoutNamed(e: Engine, ids: seq<nat>, fs: seq<Filter>, k: nat)
    requires Names(e, ids, fs) && k < |ids|
    ensures Names(e, Without(ids, k), Without(fs, k))
  {
  }

  lemma SomeElement(s: seq<nat>)
    ensures s != [] ==> exists x :: x in s
  {
    if s != [] {
      assert s[0] in s;
    }
  }

  /** The same identifiers in two orders name the same filters. */
  lemma {:induction false} SameIdsSameFilters(e: Engine, ids: seq<nat>, fs: seq<Filter>,
                                              ids': seq<nat>, fs': seq<Filter>)
    requires Distinct(ids) && Distinct(ids') && (forall id :: id in ids <==> id in ids')
    requires Names(e, ids, fs) && Names(e, ids', fs')
    ensures multiset(fs) == multiset(fs')
    decreases |ids|
  {
    if ids == [] {
      SomeElement(ids');
    } else {
      hide Distinct, Names, Without;
      assert ids[0] in ids';
      var k :| 0 <= k < |ids'| && ids'[k] == ids[0];
      WithoutId(ids, 0);
      WithoutId(ids', k);
      NamesAt(e, ids, fs, 0);
      NamesAt(e, ids', fs', k);
      WithoutNamed(e, ids, fs, 0);
      WithoutNamed(e, ids', fs', k);
      SameIdsSameFilters(e, Without(ids, 0), Without(fs, 0), Without(ids', k), Without(fs', k));
    }
  }

  lemma NamesAt(e: Engine, ids: seq<nat>, fs: seq<Filter>, k: nat)
    requires Names(e, ids, fs) && k < |ids|
    ensures |ids| == |fs| && ids[k] in e.filters && e.filters[ids[k]] == fs[k]
  {
  }

  /** Named filters can be listed in any order. */
  lemma {:induction false} Reorder(e: Engine, ids: seq<nat>, fs: seq<Filter>, fs': seq<Filter>) returns (ids': seq<nat>)
    requires Distinct(ids) && Names(e, ids, fs) && multiset(fs) == multiset(fs')
    ensures Distinct(ids') && Names(e, ids', fs') && (forall id :: id in ids' <==> id in ids)
    decreases |fs'|
  {
    if fs' == [] {
      ids' := [];
      assert |fs| == |multiset(fs)| == 0;
    } else {
      assert fs'[0] in multiset(fs);
      var k :| 0 <= k < |fs| && fs[k] == fs'[0];
      WithoutId(ids, k);
      WithoutNamed(e, ids, fs, k);
      NamesAt(e, ids, fs, k);
      WithoutSame(fs, k, fs');
      hide Distinct, Names, Without;
      var rest := Reorder(e, Without(ids, k), Without(fs, k), fs'[1..]);
      ids' := [ids[k]] + rest;
      Prefixed(e, ids[k], fs', rest);
    }
  }

  lemma Prefixed(e: Engine, id: nat, fs: seq<Filter>, rest: seq<nat>)
    requires fs != [] && id in e.filters && e.filters[id] == fs[0]
    requires Distinct(rest) && id !in rest && Names(e, rest, fs[1..])
    ensures Distinct([id] + rest) && Names(e, [id] + rest, fs)
  {
  }

  lemma WithoutSame<T>(s: seq<T>, k: nat, t: seq<T>)
    requires k < |s| && t != [] && t[0] == s[k] && multiset(s) == multiset(t)
    ensures multiset(Without(s, k)) == multiset(t[1..])
  {
    var a, b := multiset(Without(s, k)), multiset(t[1..]);
    assert t == [t[0]] + t[1..];
    assert a + multiset{t[0]} == b + multiset{t[0]};
    forall x ensures a[x] == b[x] {
      assert (a + multiset{t[0]})[x] == (b + multiset{t[0]})[x];
    }
  }

  /** The sublayer has one contents: two lists hold of it exactly when they agree up to order. */
  lemma HoldsUpToOrder(e: Engine, sub: Sublayer, ids: seq<nat>, fs: seq<Filter>, fs': seq<Filter>)
    requires Holds(e, sub, ids, fs)
    ensures (exists ids' :: Holds(e, sub, ids', fs')) <==> multiset(fs) == multiset(fs')
  {
    if multiset(fs) == multiset(fs') {
      var ids' := Reorder(e, ids, fs, fs');
      HoldsReordered(e, sub, ids, fs, ids', fs');
    }
    forall ids' | Holds(e, sub, ids', fs') ensures multiset(fs) == multiset(fs') {
      HoldsNames(e, sub, ids, fs);
      HoldsNames(e, sub, ids', fs');
      SameIdsSameFilters(e, ids, fs, ids', fs');
    }
  }

  lemma HoldsNames(e: Engine, sub: Sublayer, ids: seq<nat>, fs: seq<Filter>)
    requires Holds(e, sub, ids, fs)
    ensures Distinct(ids) && Names(e, ids, fs)
    ensures forall id :: id in ids <==> id in e.filters && e.filters[id].sublayer == sub
  {
  }

  lemma HoldsReordered(e: Engine, sub: Sublayer, ids: seq<nat>, fs: seq<Filter>, ids': seq<nat>, fs': seq<Filter>)
    requires Holds(e, sub, ids, fs) && Distinct(ids') && Names(e, ids', fs')
    requires forall id :: id in ids' <==> id in ids
    ensures Holds(e, sub, ids', fs')
  {
    HoldsNames(e, sub, ids, fs);
    forall k | 0 <= k < |ids'| ensures ids'[k] in e.filters && e.filters[ids'[k]] == fs'[k] && fs'[k].sublayer == sub {
      assert ids'[k] in ids;
    }
  }

  /** Both engines hold the same filters in the sublayer, up to identifiers. */
  ghost predicate SameSublayer(e: Engine, f: Engine, sub: Sublayer)
  {
    exists ids, ids', fs :: Holds(e, sub, ids, fs) && Holds(f, sub, ids', fs)
  }

  lemma SameSublayerIff(e: Engine, f: Engine, sub: Sublayer, ids: seq<nat>, fs: seq<Filter>,
                        ids': seq<nat>, fs': seq<Filter>)
    requires Holds(e, sub, ids, fs) && Holds(f, sub, ids', fs')
    ensures SameSublayer(e, f, sub) <==> multiset(fs) == multiset(fs')
  {
    hide Holds;
    HoldsUpToOrder(f, sub, ids', fs', fs);
    if SameSublayer(e, f, sub) {
      var a, b, gs :| Holds(e, sub, a, gs) && Holds(f, sub, b, gs);
      HoldsUpToOrder(e, sub, ids, fs, gs);
      HoldsUpToOrder(f, sub, ids', fs', gs);
    }
  }
}
