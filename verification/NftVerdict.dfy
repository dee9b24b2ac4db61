/** What the split-tunnel chains do to a packet after an accepted apply. */
module NftVerdict {
  import opened Nft
  import opened NftState
  import opened NftRun

  /** A packet with its sender's cgroup class, its mark and the mark of its connection. */
  datatype Packet = Packet(
    cgroup: string, v6: bool, source: nat, destination: nat, outInterface: string, mark: string, connMark: string)

  datatype Verdict = Continue | Accepted | Masqueraded

  // --- Evaluating a chain ---

  predicate InRange(r: IpRange, v6: bool, a: nat) { r.v6 == v6 && r.lo <= a <= r.hi }

  predicate MatchHolds(m: Match, p: Packet)
  {
    match m
    case Cgroup(same, classid) => (p.cgroup == classid) == same
    case Source(range) => InRange(range, p.v6, p.source)
    case Destination(range) => InRange(range, p.v6, p.destination)
    case OutInterface(name) => p.outInterface == name
  }

  predicate Applies(r: Rule, p: Packet) { r.Expr? && forall m :: m in r.matches ==> MatchHolds(m, p) }

  /** What one applying rule does. */
  function Effect(act: Act, p: Packet): (Packet, Verdict)
  {
    match act
    case Accept => (p, Accepted)
    case Masquerade => (p, Masqueraded)
    case SetMark(m) => (p.(mark := m), Continue)
    case RestoreMark => (p.(mark := p.connMark), Continue)
    case SetConnMark(m) => (p.(connMark := m), Continue)
  }

  /** A rule that decides ends the walk; any other hands the packet, as it left it, to the next one. */
  function Evaluate(rules: seq<Rule>, p: Packet): (Packet, Verdict)
    decreases |rules|
  {
    if rules == [] then (p, Continue)
    else if !Applies(rules[0], p) then Evaluate(rules[1..], p)
    else
      var (q, verdict) := Effect(rules[0].act, p);
      if verdict.Continue? then Evaluate(rules[1..], q) else (q, verdict)
  }

  // --- What the settings ask for ---

  /** The packet is to go around the tunnel: the cgroup's in exclude mode, everybody else's in inclusive mode. */
  predicate Bypasses(s: Split, env: Env, p: Packet)
  {
    if s.exclude then p.cgroup == env.classid else p.cgroup != env.classid
  }

  /** Leaves by the physical adapter, which has a valid name, and is to go around the tunnel. */
  predicate Masquerades(s: Split, env: Env, p: Packet)
  {
    s.adapter != "" && env.validIface(s.adapter) && p.outInterface == s.adapter && Bypasses(s, env, p)
  }

  /** Addressed to one of the adapter's own valid addresses. */
  predicate ToAdapter(s: Split, env: Env, p: Packet)
  {
    || (!p.v6 && env.validIp(s.adapterIp.text) && p.destination == s.adapterIp.bits)
    || (p.v6 && env.validIp(s.adapterIpV6.text) && p.destination == s.adapterIpV6.bits)
  }

  /** Replies can be told apart only by a valid address of the adapter. */
  predicate SomeAddress(s: Split, env: Env) { env.validIp(s.adapterIp.text) || env.validIp(s.adapterIpV6.text) }

  predicate Listed(ips: seq<IpRange>, v6: bool, a: nat)
  {
    exists ip :: ip in ips && ip.valid && ip.v6 == v6 && ip.lo <= a <= ip.hi
  }

  /** The mark a packet leaves with: the bypass mark, or, for the cgroup in inclusive mode, its connection's. */
  function MarkAfter(s: Split, env: Env, p: Packet): string
  {
    if s.exclude then (if p.cgroup == env.classid then env.mark else p.mark)
    else if !SomeAddress(s, env) then p.mark
    else if p.cgroup != env.classid then env.mark
    else p.connMark
  }

  /** Everything is let past the drop policy in inclusive mode; the cgroup and the listed addresses in exclude mode. */
  predicate LetThrough(s: Split, env: Env, p: Packet, address: nat)
  {
    !s.exclude || p.cgroup == env.classid || Listed(s.ips, p.v6, address)
  }

  // --- Chain by chain ---

  lemma EvaluateOne(r: Rule, p: Packet)
    ensures Evaluate([r], p) == if Applies(r, p) then Effect(r.act, p) else (p, Continue)
  {
    hide Applies, Effect;
    var rest := [r][1..];
    assert rest == [] && forall q: Packet :: Evaluate(rest, q) == (q, Continue);
  }

  lemma {:induction false} EvaluateAppend(a: seq<Rule>, b: seq<Rule>, p: Packet)
    ensures Evaluate(a + b, p) ==
      if Evaluate(a, p).1.Continue? then Evaluate(b, Evaluate(a, p).0) else Evaluate(a, p)
    decreases |a|
  {
    hide MatchHolds, Effect;
    if a == [] {
      assert a + b == b;
    } else {
      assert (a + b)[1..] == a[1..] + b;
      EvaluateAppend(a[1..], b, p);
      if Applies(a[0], p) {
        EvaluateAppend(a[1..], b, Effect(a[0].act, p).0);
      }
    }
  }

  lemma CgroupApplies(same: bool, classid: string, act: Act, p: Packet)
    ensures Applies(Expr([Cgroup(same, classid)], act), p) <==> (p.cgroup == classid) == same
  {
    var r := Expr([Cgroup(same, classid)], act);
    assert r.matches[0] in r.matches;
  }

  lemma RouteDoes(s: Split, env: Env, p: Packet)
    ensures Evaluate(RouteRules(s, env), p) == (p.(mark := MarkAfter(s, env, p)), Continue)
  {
    hide Evaluate, Applies;
    var restore, mark := Expr([], RestoreMark), Expr([Cgroup(s.exclude, env.classid)], SetMark(env.mark));
    var restored := p.(mark := p.connMark);
    EvaluateNothing(p);
    EvaluateOne(mark, p);
    EvaluateOne(restore, p);
    EvaluateOne(mark, restored);
    EvaluateAppend([restore], [mark], p);
    AlwaysApplies(RestoreMark, p);
    CgroupApplies(s.exclude, env.classid, SetMark(env.mark), p);
    CgroupApplies(s.exclude, env.classid, SetMark(env.mark), restored);
    assert [restore] + [mark] == [restore, mark];
  }

  lemma AlwaysApplies(act: Act, p: Packet)
    ensures Applies(Expr([], act), p)
  {
  }

  lemma NatDoes(s: Split, env: Env, p: Packet)
    ensures Evaluate(NatRules(s, env), p) ==
      (p, if Masquerades(s, env, p) then Masqueraded else Continue)
  {
    var r := MasqueradeRule(s.exclude, s, env);
    EvaluateOne(r, p);
    assert r.matches == [Cgroup(s.exclude, env.classid), OutInterface(s.adapter)];
    assert r.matches[0] in r.matches && r.matches[1] in r.matches;
  }

  lemma ConnMarkDoes(s: Split, env: Env, p: Packet)
    ensures Evaluate(MarkRules(s, env), p) ==
      (if !s.exclude && ToAdapter(s, env, p) then p.(connMark := env.mark) else p, Continue)
  {
    hide Evaluate, Applies;
    var v4, v6 := ReplyRule(false, s.adapterIp, env), ReplyRule(true, s.adapterIpV6, env);
    var first := if HasV4(s, env) then [v4] else [];
    var second := if HasV6(s, env) then [v6] else [];
    var q := p.(connMark := env.mark);
    ReplyApplies(false, s.adapterIp, env, p);
    ReplyApplies(true, s.adapterIpV6, env, p);
    ReplyApplies(true, s.adapterIpV6, env, q);
    EvaluateOne(v4, p);
    EvaluateOne(v6, p);
    EvaluateOne(v6, q);
    EvaluateNothing(p);
    EvaluateNothing(q);
    EvaluateAppend(first, second, p);
  }

  lemma EvaluateNothing(p: Packet)
    ensures Evaluate([], p) == (p, Continue)
  {
  }

  lemma ReplyApplies(v6: bool, a: Address, env: Env, p: Packet)
    ensures Applies(ReplyRule(v6, a, env), p) <==> p.v6 == v6 && p.destination == a.bits
  {
    var r := ReplyRule(v6, a, env);
    assert r.matches[0] in r.matches;
  }

  lemma {:induction false} IpExceptionsDo(ips: seq<IpRange>, incoming: bool, p: Packet)
    ensures Evaluate(IpExceptions(ips, incoming), p) ==
      (p, if Listed(ips, p.v6, if incoming then p.source else p.destination) then Accepted else Continue)
  {
    if ips == [] {
      EvaluateNothing(p);
    } else {
      hide Evaluate;
      IpExceptionsDo(ips[1..], incoming, p);
      var first := if ips[0].valid then [IpRule(ips[0], incoming)] else [];
      EvaluateAppend(first, IpExceptions(ips[1..], incoming), p);
      EvaluateOne(IpRule(ips[0], incoming), p);
      EvaluateNothing(p);
      IpApplies(ips[0], incoming, p);
      assert ips == [ips[0]] + ips[1..];
    }
  }

  lemma IpApplies(ip: IpRange, incoming: bool, p: Packet)
    ensures Applies(IpRule(ip, incoming), p) <==> InRange(ip, p.v6, if incoming then p.source else p.destination)
  {
    var r := IpRule(ip, incoming);
    assert r.matches[0] in r.matches;
  }

  lemma ExceptionsDo(s: Split, env: Env, incoming: bool, p: Packet)
    ensures Evaluate(Exceptions(s, env, incoming), p) ==
      (p, if Active(s) && LetThrough(s, env, p, if incoming then p.source else p.destination) then Accepted
          else Continue)
  {
    hide Evaluate, IpExceptions;
    EvaluateNothing(p);
    EvaluateOne(ACCEPT_ALL, p);
    EvaluateAppend(IpExceptions(s.ips, incoming), [CgroupAccept(env)], p);
    IpExceptionsDo(s.ips, incoming, p);
    EvaluateOne(CgroupAccept(env), p);
    var r := CgroupAccept(env);
    assert r.matches[0] in r.matches;
  }

  // --- After an apply ---

  predicate SplitPresent(t: Table)
  {
    StIn in t && StOut in t && StRouteOut in t && StNatPost in t && StPreCm in t
  }

  /** The chains treat the packet as the settings ask. */
  predicate Follows(t: Table, s: Split, env: Env, p: Packet)
    requires SplitPresent(t)
  {
    && Evaluate(t[StRouteOut], p) == (p.(mark := MarkAfter(s, env, p)), Continue)
    && Evaluate(t[StNatPost], p) ==
         (p, if Masquerades(s, env, p) then Masqueraded else Continue)
    && Evaluate(t[StPreCm], p) ==
         (if !s.exclude && ToAdapter(s, env, p) then p.(connMark := env.mark) else p, Continue)
    && Evaluate(t[StIn], p) == (p, if LetThrough(s, env, p, p.source) then Accepted else Continue)
    && Evaluate(t[StOut], p) == (p, if LetThrough(s, env, p, p.destination) then Accepted else Continue)
  }

  lemma SplitFollows(t: Table, s: Split, env: Env, p: Packet)
    requires Active(s)
    ensures SplitPresent(WithSplit(t, s, env)) && Follows(WithSplit(t, s, env), s, env, p)
  {
    hide Evaluate, RouteRules, NatRules, MarkRules, Exceptions;
    RouteDoes(s, env, p);
    NatDoes(s, env, p);
    ConnMarkDoes(s, env, p);
    ExceptionsDo(s, env, true, p);
    ExceptionsDo(s, env, false, p);
  }

  /** MAIN RESULT. In every interleaving, after an apply of an active split tunnel that reports success, every packet is
      marked, masqueraded, connection-marked and let through exactly as the settings of the moment ask. */
  lemma RunFollowsSettings(s0: Sys, env: Env, es: seq<Event>, accepted: bool, p: Packet)
    requires Inv(s0) && ValidRun(s0, env, es)
    requires var split := Run(s0, env, es).split; split.connected && split.enabled
    requires AfterApply(Run(s0, env, es), env, accepted).1
    ensures var s := Run(s0, env, es); var t := AfterApply(s, env, accepted).0.table;
      SplitPresent(t) && Follows(t, s.split, env, p)
  {
    hide Inv, ValidRun, Run, AfterApply, WithSplit, Follows, SplitPresent;
    RunKeepsInv(s0, env, es);
    var s := Run(s0, env, es);
    ApplyKeepsInv(s, env, accepted);
    SplitFollows(s.table, s.split, env, p);
  }

  /** The same after an enable that reports success. */
  lemma EnableFollowsSettings(s: Sys, env: Env, fw: seq<Cmd>, accepted: bool, p: Packet)
    requires Inv(s) && s.phase.Idle? && FirewallRules(fw) && s.split.connected && s.split.enabled
    requires Step(s, env, Enable(fw, accepted)).1
    ensures var t := Step(s, env, Enable(fw, accepted)).0.table;
      SplitPresent(t) && Follows(t, s.split, env, p)
  {
    hide Inv, Step, Evaluate, RulesFor, FirewallRules;
    EnableInstalls(s, env, fw, accepted);
    SplitFollows(s.table, s.split, env, p);
  }

  /** A packet that did not carry the bypass mark leaves with it exactly as the mode asks; in inclusive mode that takes
      a valid adapter address, and a reply of a connection that came in from outside keeps its way. */
  lemma MarkedIff(s: Split, env: Env, p: Packet)
    requires p.mark != env.mark
    ensures Evaluate(RouteRules(s, env), p).0.mark == env.mark <==>
      if s.exclude then p.cgroup == env.classid
      else SomeAddress(s, env) && (p.cgroup != env.classid || p.connMark == env.mark)
  {
    hide Evaluate;
    RouteDoes(s, env, p);
  }

  /** What is masqueraded is what bypasses, so a masqueraded packet carries the mark whenever one can be set. */
  lemma MasqueradedIsMarked(s: Split, env: Env, p: Packet)
    requires Evaluate(NatRules(s, env), p).1 == Masqueraded && (s.exclude || SomeAddress(s, env))
    ensures Evaluate(RouteRules(s, env), p).0.mark == env.mark
  {
    hide Evaluate;
    RouteDoes(s, env, p);
    NatDoes(s, env, p);
  }

  /** The chains of a split tunnel that does nothing. */
  predicate Untouched(t: Table) { forall c :: c in {StRouteOut, StNatPost, StPreCm} && c in t ==> t[c] == [] }

  /** An apply of an inactive split tunnel empties the exceptions but leaves the marking chains as they are, so the
      table is that of an inactive split tunnel if and only if those chains were absent or empty before. */
  lemma InactiveApplyClearsIff(s: Sys, env: Env, accepted: bool)
    requires Inv(s) && !(s.split.connected && s.split.enabled) && AfterApply(s, env, accepted).1
    ensures var t := AfterApply(s, env, accepted).0.table;
      && StIn in t && StOut in t && t[StIn] == [] && t[StOut] == []
      && (Untouched(t) <==> Untouched(s.table))
  {
    hide Inv, AfterApply;
    ApplyKeepsInv(s, env, accepted);
  }

  /** Turning an exclude-mode split tunnel off without turning the firewall off leaves the cgroup's packets marked. */
  lemma SwitchedOffStillMarks(s: Sys, env: Env, on: Split, off: Split, p: Packet)
    requires Inv(s) && Active(on) && on.exclude && !Active(off)
    requires p.cgroup == env.classid
    ensures var s1 := Step(s, env, SetSplit(on, true)).0;
      var (s2, ok) := Step(s1, env, SetSplit(off, true));
      ok && StRouteOut in s2.table && Evaluate(s2.table[StRouteOut], p).0.mark == env.mark
  {
    hide Inv, AfterApply, Evaluate, RouteRules, NatRules, MarkRules, Exceptions;
    SameInv(s, on);
    ApplyKeepsInv(s.(split := on), env, true);
    var s1 := Step(s, env, SetSplit(on, true)).0;
    SameInv(s1, off);
    ApplyKeepsInv(s1.(split := off), env, true);
    RouteDoes(on, env, p);
  }

  lemma SameInv(s: Sys, split: Split)
    requires Inv(s)
    ensures Inv(s.(split := split))
  {
    hide OwnJumpsOnly, JumpsResolve;
  }
}
