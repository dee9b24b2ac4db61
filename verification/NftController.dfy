/** The Linux firewall controller's methods against the transaction steps of NftRun. */
module NftController {
  import opened Text
  import opened Nft
  import opened NftState
  import opened NftRun

  /** What a probe for the output chain can report. */
  datatype Probe = Found | Absent | NoMessage | Transient

  class FirewallController {
    const env: Env

    var connected: bool
    var splitTunnelEnabled: bool
    var splitTunnelExclude: bool
    var splitTunnelIps: seq<IpRange>
    var defaultAdapter: string
    var defaultAdapterIp: Address
    var defaultAdapterIpV6: Address
    /** The nftables table: changed only by transactions. */
    var table: Table

    function SplitState(): Split
      reads this
    {
      Split(connected, splitTunnelEnabled, splitTunnelExclude, splitTunnelIps, defaultAdapter, defaultAdapterIp,
            defaultAdapterIpV6)
    }

    function Abstract(): Sys
      reads this
    {
      Sys(table, SplitState(), Idle)
    }

    constructor (env: Env, table: Table)
      ensures this.env == env
      ensures Abstract() == Sys(table, Split(false, false, true, [], "", NO_ADDRESS, NO_ADDRESS), Idle)
    {
      this.env := env;
      connected, splitTunnelEnabled, splitTunnelExclude := false, false, true;
      splitTunnelIps := [];
      defaultAdapter, defaultAdapterIp, defaultAdapterIpV6 := "", NO_ADDRESS, NO_ADDRESS;
      this.table := table;
    }

    method IpExceptionCommands() returns (cmds: seq<Cmd>)
      ensures cmds == IpCommands(splitTunnelIps)
    {
      hide IpRule, IpCommands;
      cmds := [];
      var ips := splitTunnelIps;
      var i := 0;
      assert ips[0..] == ips;
      while i < |ips|
        invariant 0 <= i <= |ips|
        invariant IpCommands(ips) == cmds + IpCommands(ips[i..])
      {
        IpCommandsFrom(ips, i);
        var ip := ips[i];
        i := i + 1;
        if !ip.valid {
          continue;
        }
        cmds := cmds + [AddRule(StIn, IpRule(ip, true)), AddRule(StOut, IpRule(ip, false))];
      }
      IpCommandsFrom(ips, i);
    }

    /** The rules of an active split tunnel, one `add` at a time. */
    method ActiveSplitTunnelRules() returns (rules: seq<Cmd>)
      ensures rules == ActiveCommands(SplitState(), env)
    {
      hide IpCommands, IpRule;
      rules := [];
      var defAdapterValid := defaultAdapter != "" && env.validIface(defaultAdapter);
      if splitTunnelExclude {
        if defAdapterValid {
          var matches := [Cgroup(true, env.classid), OutInterface(defaultAdapter)];
          rules := rules + [AddRule(StNatPost, Expr(matches, Masquerade))];
        }
        assert rules == On(StNatPost, NatRules(SplitState(), env));
        rules := rules + [AddRule(StRouteOut, Expr([Cgroup(true, env.classid)], SetMark(env.mark)))];
        assert rules == On(StNatPost, NatRules(SplitState(), env)) + On(StRouteOut, RouteRules(SplitState(), env));
        var ips := IpExceptionCommands();
        var cgroup := Expr([Cgroup(true, env.classid)], Accept);
        rules := rules + (ips + [AddRule(StIn, cgroup), AddRule(StOut, cgroup)]);
      } else {
        var hasV4 := env.validIp(defaultAdapterIp.text);
        var hasV6 := env.validIp(defaultAdapterIpV6.text);
        if defAdapterValid {
          var matches := [Cgroup(false, env.classid), OutInterface(defaultAdapter)];
          rules := rules + [AddRule(StNatPost, Expr(matches, Masquerade))];
        }
        assert rules == On(StNatPost, NatRules(SplitState(), env));
        var marks := [];
        if hasV4 || hasV6 {
          rules := rules + [AddRule(StRouteOut, Expr([], RestoreMark)),
                            AddRule(StRouteOut, Expr([Cgroup(false, env.classid)], SetMark(env.mark)))];
          if hasV4 {
            marks := marks + [AddRule(StPreCm, ReplyRule(false, defaultAdapterIp, env))];
          }
          if hasV6 {
            marks := marks + [AddRule(StPreCm, ReplyRule(true, defaultAdapterIpV6, env))];
          }
        }
        assert rules == On(StNatPost, NatRules(SplitState(), env)) + On(StRouteOut, RouteRules(SplitState(), env));
        assert marks == On(StPreCm, MarkRules(SplitState(), env));
        rules := rules + (marks + [AddRule(StIn, Expr([], Accept)), AddRule(StOut, Expr([], Accept))]);
      }
    }

    method BuildSplitTunnelRules() returns (buf: seq<Cmd>)
      ensures buf == SplitCommands(SplitState(), env)
    {
      buf := EnsureChain(StIn);
      buf := buf + EnsureChain(StOut);
      if connected && splitTunnelEnabled {
        var active := EnsureChain(StRouteOut) + EnsureChain(StNatPost) + EnsureChain(StPreCm);
        var rules := ActiveSplitTunnelRules();
        buf := buf + (active + rules);
      }
    }

    /** `fw` is absent when a required firewall rule could not be built. */
    method Enable(fw: Option<seq<Cmd>>, accepted: bool) returns (ok: bool)
      modifies this
      ensures fw.None? ==> !ok && Abstract() == old(Abstract())
      ensures fw.Some? ==> (Abstract(), ok) == Step(old(Abstract()), env, Event.Enable(fw.value, accepted))
      ensures old(Inv(Abstract())) && (fw.Some? ==> FirewallRules(fw.value)) ==>
                Inv(Abstract()) && ok == (fw.Some? && accepted)
    {
      hide SplitCommands, Commit, Inv, FirewallRules;
      if Inv(Abstract()) && fw.Some? && FirewallRules(fw.value) {
        EnableKeepsInv(Abstract(), env, fw.value, accepted);
      }
      var buf := [AddTable];
      var splitRules := BuildSplitTunnelRules();
      buf := buf + splitRules;
      buf := buf + EnsureChain(Input);
      buf := buf + EnsureChain(Output);
      if fw.None? {
        return false;
      }
      buf := buf + fw.value;
      buf := buf + [AddRule(Input, Jump(StIn)), AddRule(Output, Jump(StOut))];
      table, ok := RunTransaction(buf, table, accepted).0, RunTransaction(buf, table, accepted).1;
    }

    /** Two transactions; nothing else runs in between here. */
    method Disable(acceptedFirst: bool, acceptedSecond: bool) returns (ok: bool)
      modifies this
      ensures var (mid, okFirst) := Step(old(Abstract()), env, DisableFirst(acceptedFirst));
        (Abstract(), ok) == if okFirst then Step(mid, env, DisableSecond(acceptedSecond)) else (mid, false)
      ensures old(Inv(Abstract())) ==> Inv(Abstract()) && ok == (acceptedFirst && acceptedSecond)
      ensures old(Inv(Abstract())) && ok ==> !OwnChainLeft(table)
    {
      hide Commit, DropAll, Inv, OwnChainLeft;
      if Inv(Abstract()) {
        TeardownKeepsInv(Abstract(), env, acceptedFirst, acceptedSecond);
      }
      var buf := [AddTable];
      var names := [Input, Output, StRouteOut, StNatPost, StPreCm];
      if !connected {
        names := names + [DnsLeaks];
      }
      assert names == FirstDrops(connected);
      buf := buf + DropAll(names);
      var first := RunTransaction(buf, table, acceptedFirst);
      if !first.1 {
        return false;
      }
      table := first.0;
      var stBuf := [AddTable] + DropAll([StIn, StOut]);
      var second := RunTransaction(stBuf, table, acceptedSecond);
      table := second.0;
      return second.1;
    }

    method ApplySplitTunnel(accepted: bool) returns (ok: bool)
      modifies this`table
      ensures (Abstract(), ok) == AfterApply(old(Abstract()), env, accepted)
      ensures old(Inv(Abstract())) ==> Inv(Abstract()) && ok == accepted
    {
      hide SplitCommands, Commit, Inv;
      if Inv(Abstract()) {
        ApplyKeepsInv(Abstract(), env, accepted);
      }
      var rules := BuildSplitTunnelRules();
      var done := RunTransaction([AddTable] + rules, table, accepted);
      table := done.0;
      return done.1;
    }

    method SetSplitTunnelingEnabled(isConnected: bool, isEnabled: bool, isExclude: bool, adapter: string,
                                    adapterIp: Address, adapterIpV6: Address, accepted: bool)
      modifies this
      ensures var s := Split(isConnected, isEnabled, isExclude, old(splitTunnelIps), adapter, adapterIp, adapterIpV6);
        Abstract() == Step(old(Abstract()), env, SetSplit(s, accepted)).0
      ensures SplitState() ==
              Split(isConnected, isEnabled, isExclude, old(splitTunnelIps), adapter, adapterIp, adapterIpV6)
      ensures old(Inv(Abstract())) ==> Inv(Abstract())
    {
      hide AfterApply;
      connected := isConnected;
      splitTunnelEnabled := isEnabled;
      splitTunnelExclude := isExclude;
      defaultAdapter := adapter;
      defaultAdapterIp := adapterIp;
      defaultAdapterIpV6 := adapterIpV6;
      var _ := ApplySplitTunnel(accepted);
    }

    method SetSplitTunnelIpExceptions(ips: seq<IpRange>, applyNow: bool, accepted: bool) returns (ok: bool)
      modifies this
      ensures (Abstract(), ok) == Step(old(Abstract()), env, SetIps(ips, applyNow, accepted))
      ensures SplitState() == old(SplitState()).(ips := ips)
      ensures old(Inv(Abstract())) ==> Inv(Abstract())
    {
      hide AfterApply;
      splitTunnelIps := ips;
      if applyNow {
        ok := ApplySplitTunnel(accepted);
        return;
      }
      return true;
    }

    /** Reports off on a definite absence, or on a failure that carries no message; two unexpected errors in a row
        read as on. */
    method Enabled(probes: seq<Probe>) returns (on: bool)
      requires |probes| == 2
      requires forall p :: p in probes ==> (p.Found? ==> Output in table) && (p.Absent? ==> Output !in table)
      ensures !on ==> Output !in table || NoMessage in probes
      ensures on <==> probes[0].Found? || (probes[0].Transient? && (probes[1].Found? || probes[1].Transient?))
    {
      var attempt := 0;
      while attempt < 2
        invariant 0 <= attempt <= 2
        invariant forall k :: 0 <= k < attempt ==> probes[k].Transient?
      {
        if probes[attempt].Found? {
          return true;
        }
        if probes[attempt].NoMessage? || probes[attempt].Absent? {
          return false;
        }
        attempt := attempt + 1;
      }
      return true;
    }
  }

  lemma IpCommandsFrom(ips: seq<IpRange>, i: nat)
    requires i <= |ips|
    ensures IpCommands(ips[i..]) ==
      if i == |ips| then []
      else
        (if ips[i].valid then [AddRule(StIn, IpRule(ips[i], true)), AddRule(StOut, IpRule(ips[i], false))]
         else []) +
        IpCommands(ips[i + 1..])
  {
    assert i < |ips| ==> ips[i..][1..] == ips[i + 1..];
  }

  /** A teardown without anything in between, from a state of the invariant. */
  lemma TeardownKeepsInv(s: Sys, env: Env, acceptedFirst: bool, acceptedSecond: bool)
    requires Inv(s) && s.phase.Idle?
    ensures var (mid, okFirst) := Step(s, env, DisableFirst(acceptedFirst));
      && okFirst == acceptedFirst && Inv(mid)
      && (okFirst ==>
           var (end, ok) := Step(mid, env, DisableSecond(acceptedSecond));
           ok == acceptedSecond && Inv(end) && (ok ==> !OwnChainLeft(end.table)))
  {
    hide Step, OwnChainLeft;
    FirstTeardownEffect(s, env, acceptedFirst);
    var (mid, okFirst) := Step(s, env, DisableFirst(acceptedFirst));
    if okFirst {
      MidPhase(s, env, acceptedFirst);
      SecondTeardownEffect(mid, env, acceptedSecond);
      if acceptedSecond {
        var es: seq<Event> := [];
        assert Run(mid, env, es) == mid && ValidRun(mid, env, es);
        DisableLeavesNothingIff(mid, env, es, acceptedSecond);
      }
    }
  }

  lemma MidPhase(s: Sys, env: Env, accepted: bool)
    ensures var (mid, ok) := Step(s, env, DisableFirst(accepted)); ok ==> mid.phase == Between(false)
  {
    hide RunTransaction;
  }
}
