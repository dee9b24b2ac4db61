/** The incremental updates of the macOS firewall agree with a full rebuild: in every run, after a retry, and exactly
    when. */
module PfSync {
  import opened PfRules
  import opened PfState

  datatype Event =
    | Enable(config: Config, live: Live, o: Outcomes)
    | Disable(keepPfEnabled: bool, teardown: Teardown)
    | SetVpnDns(list: seq<Dns>, lands: bool)

  function Step(s: State, e: Event, valid: string -> bool): State
  {
    match e
    case Enable(c, live, o) => AfterEnable(s, c, live, valid, o).0
    case Disable(keep, o) => AfterDisable(s, keep, o).0
    case SetVpnDns(list, lands) => AfterSetVpnDns(s, list, lands)
  }

  function Run(s: State, es: seq<Event>, valid: string -> bool): State
    decreases |es|
  {
    if es == [] then s else Run(Step(s, es[0], valid), es[1..], valid)
  }

  /** A fresh controller over whatever pf holds, for instance the ruleset of an earlier process. */
  function Start(pf: Kernel): State { State(false, [], false, NO_CONFIG, [], [], [], pf) }

  /** The caches describe pf. */
  predicate InSync(s: State)
  {
    s.hasLastConfig ==> s.kernel.pieces == Baseline(s) && s.kernel.main == OUR_MAIN
  }

  /** No incremental update of a synchronised controller fails; any other command may fail at any point. */
  predicate NoFailedUpdate(s: State, es: seq<Event>, valid: string -> bool)
    decreases |es|
  {
    es != [] ==>
      && (es[0].Enable? && s.hasLastConfig ==> AfterEnable(s, es[0].config, es[0].live, valid, es[0].o).1)
      && NoFailedUpdate(Step(s, es[0], valid), es[1..], valid)
  }

  // --- One update ---

  /** The pieces whose gate stays shut are still what the caches say. */
  predicate ShutPiecesInSync(s: State, a: Loads)
  {
    var k, b := s.kernel.pieces, Baseline(s);
    && (!a.ips ==> k.ips == b.ips)
    && (!a.disallowed ==> k.disallowed == b.disallowed)
    && (!a.lan ==> k.lan == b.lan)
    && (!a.vpn ==> k.vpn == b.vpn)
    && (!a.ports ==> k.ports == b.ports)
  }

  /** A shut gate means the target equals the cache. */
  lemma ShutGateMeansSame(s: State, c: Config, live: Live, valid: string -> bool)
    ensures var a := Attempts(s, c, live, valid, false);
      var t, b := TargetPieces(c, live, valid), Baseline(s);
      && (!a.ips ==> t.ips == b.ips) && (!a.disallowed ==> t.disallowed == b.disallowed)
      && (!a.lan ==> t.lan == b.lan) && (!a.vpn ==> t.vpn == b.vpn) && (!a.ports ==> t.ports == b.ports)
  {
  }

  /** After an update reported as successful pf holds what a full build would install if and only if the pieces that
      were not reloaded were in sync beforehand. */
  lemma UpdateAgreesIff(s: State, c: Config, live: Live, valid: string -> bool, o: Outcomes)
    requires s.hasLastConfig && AfterEnable(s, c, live, valid, o).1
    ensures AfterEnable(s, c, live, valid, o).0.kernel.pieces == TargetPieces(c, live, valid) <==>
            ShutPiecesInSync(s, Attempts(s, c, live, valid, false))
  {
    hide TargetPieces, Attempts, Baseline;
    ShutGateMeansSame(s, c, live, valid);
  }

  predicate AllLand(o: Outcomes) { o.full == FullLoad(true, true, true, true) }

  /** A full build installs the target whatever was there before. */
  lemma FullBuildInstallsTarget(s: State, c: Config, live: Live, valid: string -> bool, o: Outcomes)
    requires AllLand(o)
    ensures AfterFull(s, c, live, valid, o).1
    ensures AfterFull(s, c, live, valid, o).0.kernel.pieces == TargetPieces(c, live, valid)
  {
    hide TargetPieces;
  }

  /** A successful enable leaves pf equal to the target and the caches equal to pf. */
  lemma EnableSyncs(s: State, c: Config, live: Live, valid: string -> bool, o: Outcomes)
    requires InSync(s)
    ensures var (s', ok) := AfterEnable(s, c, live, valid, o);
      && (ok ==> s'.kernel.pieces == TargetPieces(c, live, valid) && s'.hasLastConfig && InSync(s'))
      && (!ok && !s.hasLastConfig ==> !s'.hasLastConfig)
  {
    hide LanText, VpnText, KeepValid, PortsText, SetOf, ProbedV6;
    if s.hasLastConfig && AfterEnable(s, c, live, valid, o).1 {
      UpdateAgreesIff(s, c, live, valid, o);
    }
  }

  lemma {:induction false} RunStaysInSync(s: State, es: seq<Event>, valid: string -> bool)
    requires InSync(s) && NoFailedUpdate(s, es, valid)
    ensures InSync(Run(s, es, valid))
    decreases |es|
  {
    if es != [] {
      hide AfterEnable, Baseline;
      match es[0] {
        case Enable(c, live, o) => EnableSyncs(s, c, live, valid, o);
        case Disable(keep, o) =>
        case SetVpnDns(list, lands) => DnsKeepsSync(s, list, lands);
      }
      RunStaysInSync(Step(s, es[0], valid), es[1..], valid);
    }
  }

  /** Every `pfctl -e` of the run works. */
  predicate TurnsOn(es: seq<Event>) { forall e :: e in es && e.Enable? ==> e.o.full.on }

  lemma EnableStaysOn(s: State, c: Config, live: Live, valid: string -> bool, o: Outcomes)
    requires (s.hasLastConfig ==> s.kernel.pfEnabled) && o.full.on
    ensures var s' := AfterEnable(s, c, live, valid, o).0; s'.hasLastConfig ==> s'.kernel.pfEnabled
  {
    hide LanText, VpnText, KeepValid, PortsText, SetOf, ProbedV6;
  }

  /** While a baseline is kept, pf is on. */
  lemma {:induction false} RunStaysOn(s: State, es: seq<Event>, valid: string -> bool)
    requires (s.hasLastConfig ==> s.kernel.pfEnabled) && TurnsOn(es)
    ensures var s' := Run(s, es, valid); s'.hasLastConfig ==> s'.kernel.pfEnabled
    decreases |es|
  {
    if es != [] {
      hide AfterEnable;
      assert es[0] in es && TurnsOn(es[1..]);
      if es[0].Enable? {
        EnableStaysOn(s, es[0].config, es[0].live, valid, es[0].o);
      }
      RunStaysOn(Step(s, es[0], valid), es[1..], valid);
    }
  }

  lemma DnsKeepsSync(s: State, list: seq<Dns>, lands: bool)
    requires InSync(s)
    ensures InSync(AfterSetVpnDns(s, list, lands))
  {
  }

  /** MAIN RESULT. Take any run of enable, disable and setVpnDns over whatever ruleset pf held at the start, in which
      no incremental update failed. Then every successful enable leaves in pf exactly the two tables and three anchors
      a full build from the same live state would have installed, although it reloaded only what its gates let
      through. */
  lemma IncrementalEqualsFull(pf: Kernel, es: seq<Event>, c: Config, live: Live, valid: string -> bool,
                              o: Outcomes, full: Outcomes)
    requires NoFailedUpdate(Start(pf), es, valid) && AllLand(full)
    requires AfterEnable(Run(Start(pf), es, valid), c, live, valid, o).1
    ensures var s := Run(Start(pf), es, valid);
      var s' := AfterEnable(s, c, live, valid, o).0;
      && s'.kernel.pieces == AfterFull(s, c, live, valid, full).0.kernel.pieces
      && s'.kernel.main == OUR_MAIN
      && (TurnsOn(es) && o.full.on ==> s'.kernel.pfEnabled)
  {
    hide AfterEnable, AfterFull;
    var s := Run(Start(pf), es, valid);
    if TurnsOn(es) && o.full.on {
      RunStaysOn(Start(pf), es, valid);
      EnableStaysOn(s, c, live, valid, o);
    }
    RunStaysInSync(Start(pf), es, valid);
    EnableSyncs(s, c, live, valid, o);
    FullBuildInstallsTarget(s, c, live, valid, full);
  }

  // --- Retrying a failed update ---

  /** Enabling the same intent from the same live state again and again. */
  function Retry(s: State, c: Config, live: Live, valid: string -> bool, os: seq<Outcomes>): State
    decreases |os|
  {
    if os == [] then s else Retry(AfterEnable(s, c, live, valid, os[0]).0, c, live, valid, os[1..])
  }

  predicate AllButLastFail(s: State, c: Config, live: Live, valid: string -> bool, os: seq<Outcomes>)
    decreases |os|
  {
    os != [] &&
    var (s', ok) := AfterEnable(s, c, live, valid, os[0]);
    if |os| == 1 then ok else !ok && AllButLastFail(s', c, live, valid, os[1..])
  }

  /** A failed update moves no cache, so the same gates open again and the shut pieces are untouched. */
  lemma FailedUpdateKeepsGates(s: State, c: Config, live: Live, valid: string -> bool, o: Outcomes)
    requires s.hasLastConfig && !AfterEnable(s, c, live, valid, o).1
    requires ShutPiecesInSync(s, Attempts(s, c, live, valid, false))
    ensures var s' := AfterEnable(s, c, live, valid, o).0;
      && s'.hasLastConfig && Attempts(s', c, live, valid, false) == Attempts(s, c, live, valid, false)
      && ShutPiecesInSync(s', Attempts(s', c, live, valid, false))
  {
    hide LanText, VpnText, KeepValid, PortsText, SetOf, ProbedV6;
  }

  lemma {:induction false} RetryReaches(s: State, c: Config, live: Live, valid: string -> bool, os: seq<Outcomes>)
    requires s.hasLastConfig && ShutPiecesInSync(s, Attempts(s, c, live, valid, false))
    requires AllButLastFail(s, c, live, valid, os)
    ensures Retry(s, c, live, valid, os).kernel.pieces == TargetPieces(c, live, valid)
    decreases |os|
  {
    hide AfterEnable, TargetPieces, Attempts, ShutPiecesInSync;
    var s' := AfterEnable(s, c, live, valid, os[0]).0;
    if |os| == 1 {
      UpdateAgreesIff(s, c, live, valid, os[0]);
      assert Retry(s', c, live, valid, os[1..]) == s';
    } else {
      FailedUpdateKeepsGates(s, c, live, valid, os[0]);
      RetryReaches(s', c, live, valid, os[1..]);
    }
  }

  /** MAIN RESULT. From a synchronised state, push a new intent any number of times with any subset of the loads
      landing each time, until one push reports success: every table and anchor then has the new value. */
  lemma RetryRepairs(s: State, c: Config, live: Live, valid: string -> bool, os: seq<Outcomes>)
    requires s.hasLastConfig && InSync(s) && AllButLastFail(s, c, live, valid, os)
    ensures Retry(s, c, live, valid, os).kernel.pieces == TargetPieces(c, live, valid)
  {
    hide AfterEnable, TargetPieces, Attempts;
    RetryReaches(s, c, live, valid, os);
  }

  // --- Pushing something else after failures ---

  /** One push: an intent, the live state it met, and which loads landed. */
  datatype Push = Push(config: Config, live: Live, o: Outcomes)

  function After(s: State, ps: seq<Push>, valid: string -> bool): State
    decreases |ps|
  {
    if ps == [] then s else After(AfterEnable(s, ps[0].config, ps[0].live, valid, ps[0].o).0, ps[1..], valid)
  }

  predicate AllFail(s: State, ps: seq<Push>, valid: string -> bool)
    decreases |ps|
  {
    ps != [] ==>
      var (s', ok) := AfterEnable(s, ps[0].config, ps[0].live, valid, ps[0].o);
      !ok && AllFail(s', ps[1..], valid)
  }

  /** The loads of a push that were attempted, going by the caches of `s`, and landed. */
  function Landed(s: State, p: Push, valid: string -> bool): Loads
  {
    Both(Attempts(s, p.config, p.live, valid, false), p.o.loads)
  }

  /** What the pushes leave in pf, going by the caches of `s` throughout. */
  function Leftover(s: State, pieces: Pieces, ps: seq<Push>, valid: string -> bool): Pieces
    decreases |ps|
  {
    if ps == [] then pieces
    else
      var t := TargetPieces(ps[0].config, ps[0].live, valid);
      Leftover(s, Land(pieces, t, Landed(s, ps[0], valid)), ps[1..], valid)
  }

  predicate SameCaches(s: State, t: State)
  {
    && s.hasLastConfig == t.hasLastConfig && s.lastConfig == t.lastConfig && s.lastDisallowed == t.lastDisallowed
    && s.lastLan == t.lastLan && s.lastVpn == t.lastVpn
  }

  /** Failed pushes move no cache, and pf by just their landed loads. */
  lemma {:induction false} FailuresLeave(s: State, cur: State, ps: seq<Push>, valid: string -> bool)
    requires s.hasLastConfig && SameCaches(s, cur) && AllFail(cur, ps, valid)
    ensures SameCaches(s, After(cur, ps, valid))
    ensures After(cur, ps, valid).kernel.pieces == Leftover(s, cur.kernel.pieces, ps, valid)
    decreases |ps|
  {
    if ps != [] {
      hide LanText, VpnText, KeepValid, PortsText, SetOf, ProbedV6, TargetPieces, Land;
      FailuresLeave(s, AfterEnable(cur, ps[0].config, ps[0].live, valid, ps[0].o).0, ps[1..], valid);
    }
  }

  /** Every piece whose gate stays shut already has the value asked for. */
  predicate ShutPiecesAre(a: Loads, p: Pieces, t: Pieces)
  {
    && (!a.ips ==> p.ips == t.ips)
    && (!a.disallowed ==> p.disallowed == t.disallowed)
    && (!a.lan ==> p.lan == t.lan)
    && (!a.vpn ==> p.vpn == t.vpn)
    && (!a.ports ==> p.ports == t.ports)
  }

  /** MAIN RESULT. After any failed pushes on top of a synchronised state, a push that reports success leaves what a
      full build would if and only if every piece it does not reload was left by the failures at the value it should
      have. */
  lemma NextPushAgreesIff(s: State, ps: seq<Push>, c: Config, live: Live, valid: string -> bool, o: Outcomes)
    requires s.hasLastConfig && InSync(s) && AllFail(s, ps, valid)
    requires AfterEnable(After(s, ps, valid), c, live, valid, o).1
    ensures AfterEnable(After(s, ps, valid), c, live, valid, o).0.kernel.pieces == TargetPieces(c, live, valid) <==>
      ShutPiecesAre(Attempts(s, c, live, valid, false), Leftover(s, Baseline(s), ps, valid),
                    TargetPieces(c, live, valid))
  {
    hide AfterEnable, TargetPieces, LanText, VpnText, KeepValid, PortsText, SetOf, ProbedV6;
    var s' := After(s, ps, valid);
    FailuresLeave(s, s, ps, valid);
    assert Attempts(s', c, live, valid, false) == Attempts(s, c, live, valid, false);
    ShutGateMeansSame(s', c, live, valid);
    UpdateAgreesIff(s', c, live, valid, o);
  }

  /** After one failed push: exactly when no piece it loaded stays behind a shut gate at a different value. */
  lemma NextIntentAgreesIff(s: State, p: Push, c: Config, live: Live, valid: string -> bool, o: Outcomes)
    requires s.hasLastConfig && InSync(s) && !AfterEnable(s, p.config, p.live, valid, p.o).1
    requires AfterEnable(AfterEnable(s, p.config, p.live, valid, p.o).0, c, live, valid, o).1
    ensures var l, a := Landed(s, p, valid), Attempts(s, c, live, valid, false);
      var was, t := TargetPieces(p.config, p.live, valid), TargetPieces(c, live, valid);
      AfterEnable(AfterEnable(s, p.config, p.live, valid, p.o).0, c, live, valid, o).0.kernel.pieces == t <==>
        && (l.ips && !a.ips ==> was.ips == t.ips)
        && (l.disallowed && !a.disallowed ==> was.disallowed == t.disallowed)
        && (l.lan && !a.lan ==> was.lan == t.lan)
        && (l.vpn && !a.vpn ==> was.vpn == t.vpn)
        && (l.ports && !a.ports ==> was.ports == t.ports)
  {
    hide AfterEnable, TargetPieces, Attempts, Baseline;
    var ps := [p];
    assert ps[1..] == [];
    var s1 := AfterEnable(s, p.config, p.live, valid, p.o).0;
    assert After(s, ps, valid) == After(s1, [], valid) == s1;
    assert AllFail(s1, [], valid);
    NextPushAgreesIff(s, ps, c, live, valid, o);
    ShutGateMeansSame(s, c, live, valid);
    var was := TargetPieces(p.config, p.live, valid);
    assert Leftover(s, Baseline(s), ps, valid) == Leftover(s, Land(Baseline(s), was, Landed(s, p, valid)), [], valid);
  }

  /** An instance: after a push of `b` that loaded the address table and then failed, pushing the last good intent again
      reports success, reloads nothing, and leaves b's addresses in pf. */
  lemma FallingBackKeepsStalePieces(s: State, live: Live, valid: string -> bool, b: Config,
                                    o: Outcomes, again: Outcomes)
    requires s.hasLastConfig && InSync(s) && s.kernel.pieces == TargetPieces(s.lastConfig, live, valid)
    requires s.lastDisallowed == KeepValid(valid, live.resolvers)
    requires SetOf(b.allowedIps) != SetOf(s.lastConfig.allowedIps) && LanText(b, live) != s.lastLan
    requires o.loads.ips && !o.loads.lan
    ensures var (s1, ok1) := AfterEnable(s, b, live, valid, o);
      var (s2, ok2) := AfterEnable(s1, s.lastConfig, live, valid, again);
      && !ok1 && ok2 && s2.kernel.pieces == s1.kernel.pieces
      && s2.kernel.pieces.ips == SetOf(b.allowedIps) != TargetPieces(s.lastConfig, live, valid).ips
  {
    hide LanText, VpnText, KeepValid, PortsText, SetOf, ProbedV6;
  }

  /** Such a push exists. */
  lemma StalePushExists(valid: string -> bool)
    ensures var live := Live([], []);
      var s := AfterEnable(Start(Kernel(false, NO_MAIN, NO_PIECES, {})), NO_CONFIG, live, valid,
                           Outcomes(Loads(true, true, true, true, true), FullLoad(true, true, true, true), true)).0;
      var b := NO_CONFIG.(allowedIps := ["198.51.100.7"], vpnInterfaceName := "utun4");
      && s.hasLastConfig && InSync(s) && s.kernel.pieces == TargetPieces(s.lastConfig, live, valid)
      && s.lastDisallowed == KeepValid(valid, live.resolvers)
      && SetOf(b.allowedIps) != SetOf(s.lastConfig.allowedIps) && LanText(b, live) != s.lastLan
  {
    hide VpnText, KeepValid, PortsText, ProbedV6, ProbedAddrs;
    var live := Live([], []);
    var b := NO_CONFIG.(allowedIps := ["198.51.100.7"], vpnInterfaceName := "utun4");
    assert "198.51.100.7" in SetOf(b.allowedIps);
    RuleCounts(live, b);
  }

  lemma RuleCounts(live: Live, b: Config)
    requires b.vpnInterfaceName != "" && !b.allowLanTraffic && !b.isCustomConfig
    ensures |LanText(NO_CONFIG, live)| < |LanText(b, live)|
  {
    hide ProbedAddrs, ProbedV6, AlwaysRules, UnscopedRules;
  }
}
