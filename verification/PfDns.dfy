/** The VPN resolver table over whole runs. */
module PfDns {
  import opened PfRules
  import opened PfState
  import opened PfSync

  /** The kept list has the valid entries and no others. */
  lemma {:induction false} ValidDnsExactly(list: seq<Dns>, text: string)
    ensures text in ValidDns(list) <==> exists d :: d in list && d.valid && d.text == text
  {
    if list != [] {
      ValidDnsExactly(list[1..], text);
      assert list == [list[0]] + list[1..];
    }
  }

  lemma {:induction false} KeepValidExactly(valid: string -> bool, ips: seq<string>, ip: string)
    ensures ip in KeepValid(valid, ips) <==> ip in ips && valid(ip)
  {
    if ips != [] {
      KeepValidExactly(valid, ips[1..], ip);
      assert ips == [ips[0]] + ips[1..];
    }
  }

  /** The interface's own addresses and no others. */
  lemma {:induction false} OwnAddrsExactly(addrs: seq<IfAddr>, iface: string, own: LocalAddr)
    ensures own in OwnAddrs(addrs, iface) <==> IfAddr(iface, Inet(own)) in addrs
  {
    if addrs != [] {
      OwnAddrsExactly(addrs[1..], iface, own);
      assert addrs == [addrs[0]] + addrs[1..];
    }
  }

  /** The texts of the last list pushed. */
  ghost function Pushed(es: seq<Event>): set<string>
  {
    if es == [] then {}
    else
      var last := es[|es| - 1];
      if last.SetVpnDns? then set d | d in last.list && d.valid :: d.text else Pushed(es[..|es| - 1])
  }

  /** Commands that touch the resolver table work: loading it, and replacing the ruleset at teardown. */
  predicate DnsLands(e: Event)
  {
    match e
    case Enable(_, _, o) => o.dns
    case Disable(_, o) => o.load || o.flushed
    case SetVpnDns(_, lands) => lands
  }

  predicate Pushes(es: seq<Event>) { exists e :: e in es && e.SetVpnDns? }

  /** Enabled, the table is the list; otherwise it is empty. Until a list is pushed it may be what pf held before. */
  ghost predicate TableFollows(s: State, pushed: bool, left: set<string>)
  {
    && s.enabled == s.hasLastConfig
    && (|| s.kernel.vpnDns == (if s.enabled then SetOf(s.vpnDns) else {})
        || (!pushed && s.vpnDns == [] && s.kernel.vpnDns == left))
  }

  lemma StepFollows(s: State, e: Event, valid: string -> bool, pushed: bool, left: set<string>)
    requires TableFollows(s, pushed, left) && DnsLands(e)
    ensures TableFollows(Step(s, e, valid), pushed || e.SetVpnDns?, left)
    ensures Step(s, e, valid).vpnDns == if e.SetVpnDns? then ValidDns(e.list) else s.vpnDns
  {
    hide TargetPieces, Attempts, KeepValid, ValidDns, Land;
  }

  function RunTo(pf: Kernel, es: seq<Event>, valid: string -> bool): State { Run(Start(pf), es, valid) }

  lemma {:induction false} RunLast(s: State, es: seq<Event>, valid: string -> bool)
    requires es != []
    ensures Run(s, es, valid) == Step(Run(s, es[..|es| - 1], valid), es[|es| - 1], valid)
    decreases |es|
  {
    hide Step;
    if |es| == 1 {
      assert es[1..] == [] && es[..0] == [];
    } else {
      RunLast(Step(s, es[0], valid), es[1..], valid);
      assert es[1..][..|es| - 2] == es[..|es| - 1][1..] && es[1..][|es| - 2] == es[|es| - 1];
    }
  }

  /** In every run whose table loads and teardowns work, the resolver table is the valid part of the last list pushed
      while the firewall is on, and empty while it is off; before the first push an adopted ruleset keeps its table. */
  lemma {:induction false} RunTableFollows(pf: Kernel, es: seq<Event>, valid: string -> bool)
    requires forall e :: e in es ==> DnsLands(e)
    ensures var z := RunTo(pf, es, valid);
      && TableFollows(z, Pushes(es), pf.vpnDns) && SetOf(z.vpnDns) == Pushed(es)
      && (|| z.kernel.vpnDns == (if z.enabled then Pushed(es) else {})
          || (!Pushes(es) && z.kernel.vpnDns == pf.vpnDns))
  {
    hide Step, Run;
    if es == [] {
      assert RunTo(pf, es, valid) == Start(pf) by { RunNothing(Start(pf), valid); }
    } else {
      var n := |es| - 1;
      RunTableFollows(pf, es[..n], valid);
      RunLast(Start(pf), es, valid);
      StepFollows(RunTo(pf, es[..n], valid), es[n], valid, Pushes(es[..n]), pf.vpnDns);
      assert Pushes(es) <==> Pushes(es[..n]) || es[n].SetVpnDns? by { assert es == es[..n] + [es[n]]; }
      if es[n].SetVpnDns? {
        forall t ensures t in ValidDns(es[n].list) <==> exists d :: d in es[n].list && d.valid && d.text == t {
          ValidDnsExactly(es[n].list, t);
        }
      }
    }
  }

  lemma RunNothing(s: State, valid: string -> bool)
    ensures Run(s, [], valid) == s
  {
  }
}
