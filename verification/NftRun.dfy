/** Every interleaving, transaction by transaction, of the thread that turns the Linux firewall on and off with the
    threads that re-apply split tunneling. */
module NftRun {
  import opened Text
  import opened Nft
  import opened NftState

  // --- What the transactions leave behind ---

  lemma ExecAddTable(rest: seq<Cmd>, w: Work)
    ensures Exec([AddTable] + rest, w) == Exec(rest, w)
  {
    assert ([AddTable] + rest)[1..] == rest;
  }

  lemma ActiveEffect(s: Split, env: Env, w: Work)
    requires Active(s) && StIn in w.table && StOut in w.table && w.table[StIn] == [] && w.table[StOut] == []
    ensures Exec(ActiveChains() + ActiveCommands(s, env), w) == Some(w.(table := WithSplit(w.table, s, env)))
  {
    hide Exec, ActiveCommands, NatRules, RouteRules, MarkRules, Exceptions, EnsureChain, Appended;
    ExecAppend(ActiveChains(), ActiveCommands(s, env), w);
    ExecAppend(EnsureChain(StRouteOut) + EnsureChain(StNatPost), EnsureChain(StPreCm), w);
    ExecAppend(EnsureChain(StRouteOut), EnsureChain(StNatPost), w);
    ExecEnsure(StRouteOut, w);
    var w1 := w.(table := w.table[StRouteOut := []]);
    ExecEnsure(StNatPost, w1);
    var w2 := w1.(table := w1.table[StNatPost := []]);
    ExecEnsure(StPreCm, w2);
    var w3 := w2.(table := w2.table[StPreCm := []]);
    ActiveCommandsPlain(s, env);
    PlainIn(ActiveCommands(s, env), {StIn, StOut, StRouteOut, StNatPost, StPreCm}, w3.table.Keys);
    ExecPlainRules(ActiveCommands(s, env), w3);
    AppendedIsSplit(s, env, w.table, w3.table);
  }

  lemma PlainIn(cmds: seq<Cmd>, few: set<Chain>, many: set<Chain>)
    requires PlainRules(cmds, few) && few <= many
    ensures PlainRules(cmds, many)
  {
  }

  lemma AppendedIsSplit(s: Split, env: Env, t: Table, t3: Table)
    requires Active(s) && StIn in t && StOut in t && t[StIn] == [] && t[StOut] == []
    requires t3 == t[StRouteOut := []][StNatPost := []][StPreCm := []]
    ensures Appended(t3, ActiveCommands(s, env)) == WithSplit(t, s, env)
  {
    hide ActiveCommands, NatRules, RouteRules, MarkRules, Exceptions, RulesFor;
    forall c | c in t3 ensures t3[c] + RulesFor(ActiveCommands(s, env), c) == WithSplit(t, s, env)[c] {
      ActiveCommandsRules(s, env, c);
    }
  }

  /** A split-tunnel apply always succeeds when accepted and puts every chain it manages at its intended contents. */
  lemma ApplyEffect(s: Split, env: Env, w: Work)
    ensures Exec(ApplyCommands(s, env), w) == Some(w.(table := WithSplit(w.table, s, env)))
  {
    hide Exec, ActiveCommands, NatRules, RouteRules, MarkRules, EnsureChain, ActiveChains;
    ExecAddTable(SplitCommands(s, env), w);
    var rest := if Active(s) then ActiveChains() + ActiveCommands(s, env) else [];
    ExecAppend(EnsureChain(StIn) + EnsureChain(StOut), rest, w);
    ExecAppend(EnsureChain(StIn), EnsureChain(StOut), w);
    ExecEnsure(StIn, w);
    var w1 := w.(table := w.table[StIn := []]);
    ExecEnsure(StOut, w1);
    var w2 := w1.(table := w1.table[StOut := []]);
    if Active(s) {
      ActiveEffect(s, env, w2);
      assert WithSplit(w2.table, s, env) == WithSplit(w.table, s, env);
    } else {
      ExecNothing(w2);
      assert w2.table == WithSplit(w.table, s, env);
    }
  }

  lemma ExecNothing(w: Work)
    ensures Exec([], w) == Some(w)
  {
  }

  function WithFirewall(t: Table, s: Split, env: Env, fw: seq<Cmd>): Table
  {
    WithSplit(t, s, env)[Input := RulesFor(fw, Input) + [Jump(StIn)]][Output := RulesFor(fw, Output) + [Jump(StOut)]]
  }

  /** Enabling always succeeds when accepted: the jump targets exist by the time the jumps are added. */
  lemma EnableEffect(s: Split, env: Env, fw: seq<Cmd>, w: Work)
    requires FirewallRules(fw)
    ensures Exec(EnableCommands(s, env, fw), w) ==
      Some(Work(WithFirewall(w.table, s, env, fw), w.referenced + {StIn} + {StOut}))
  {
    hide Exec, ApplyCommands, EnsureChain, Appended, RulesFor, Exceptions, NatRules, RouteRules, MarkRules;
    var a, jumps := ApplyCommands(s, env), [AddRule(Input, Jump(StIn)), AddRule(Output, Jump(StOut))];
    ExecAppend(a + EnsureChain(Input) + EnsureChain(Output) + fw, jumps, w);
    ExecAppend(a + EnsureChain(Input) + EnsureChain(Output), fw, w);
    ExecAppend(a + EnsureChain(Input), EnsureChain(Output), w);
    ExecAppend(a, EnsureChain(Input), w);
    ApplyEffect(s, env, w);
    var w1 := w.(table := WithSplit(w.table, s, env));
    ExecEnsure(Input, w1);
    var w2 := w1.(table := w1.table[Input := []]);
    ExecEnsure(Output, w2);
    var w3 := w2.(table := w2.table[Output := []]);
    PlainIn(fw, {Input, Output}, w3.table.Keys);
    ExecPlainRules(fw, w3);
    AppendedFirewall(fw, w3.table);
    var w4 := w3.(table := w3.table[Input := RulesFor(fw, Input)][Output := RulesFor(fw, Output)]);
    ExecJumps(w4);
    assert w4.table[Input := w4.table[Input] + [Jump(StIn)]][Output := w4.table[Output] + [Jump(StOut)]] ==
      WithFirewall(w.table, s, env, fw);
  }

  lemma AppendedFirewall(fw: seq<Cmd>, t: Table)
    requires FirewallRules(fw) && Input in t && Output in t && t[Input] == [] && t[Output] == []
    ensures Appended(t, fw) == t[Input := RulesFor(fw, Input)][Output := RulesFor(fw, Output)]
  {
    hide RulesFor;
    var want := t[Input := RulesFor(fw, Input)][Output := RulesFor(fw, Output)];
    forall c | c in t ensures Appended(t, fw)[c] == want[c] {
      if c != Input && c != Output {
        NoRulesElsewhere(fw, c);
      }
    }
    assert Appended(t, fw).Keys == want.Keys;
  }

  lemma {:induction false} NoRulesElsewhere(fw: seq<Cmd>, c: Chain)
    requires FirewallRules(fw) && c != Input && c != Output
    ensures RulesFor(fw, c) == []
  {
    if fw != [] {
      assert fw[0] in fw;
      NoRulesElsewhere(fw[1..], c);
    }
  }

  lemma ExecJumps(w: Work)
    requires Input in w.table && Output in w.table && StIn in w.table && StOut in w.table
    ensures Exec([AddRule(Input, Jump(StIn)), AddRule(Output, Jump(StOut))], w) ==
      Some(Work(w.table[Input := w.table[Input] + [Jump(StIn)]][Output := w.table[Output] + [Jump(StOut)]],
                w.referenced + {StIn} + {StOut}))
  {
    var cmds := [AddRule(Input, Jump(StIn)), AddRule(Output, Jump(StOut))];
    var w1 := ExecOne(cmds[0], w).value;
    assert cmds[1..] == [cmds[1]] && |cmds[1..][1..]| == 0;
    assert Exec(cmds[1..], w1) == ExecOne(cmds[1], w1);
  }

  /** A teardown succeeds exactly when nothing it deletes is referenced. */
  lemma {:induction false} DropAllEffect(names: seq<Chain>, w: Work)
    ensures Exec(DropAll(names), w) ==
      if exists n :: n in names && n in w.referenced then None
      else Some(w.(table := w.table - (set n | n in names)))
  {
    if names == [] {
      assert w.table - (set n: Chain | n in names) == w.table;
    } else {
      var w1 := w.(table := w.table - {names[0]});
      ExecAppend(DropChain(names[0]), DropAll(names[1..]), w);
      ExecDrop(names[0], w);
      DropAllEffect(names[1..], w1);
      assert names == [names[0]] + names[1..];
      assert w1.table - (set n | n in names[1..]) == w.table - (set n | n in names);
    }
  }

  // --- The interleaved system ---

  /** Between the two transactions of a teardown; `interfered` records a successful apply of an active split tunnel
      since the first one. */
  datatype Phase = Idle | Between(interfered: bool)

  datatype Sys = Sys(table: Table, split: Split, phase: Phase)

  datatype Event =
    | Enable(fw: seq<Cmd>, accepted: bool)
    | DisableFirst(accepted: bool)
    | DisableSecond(accepted: bool)
    | Apply(accepted: bool)
    | SetSplit(split: Split, accepted: bool)
    | SetIps(ips: seq<IpRange>, applyNow: bool, accepted: bool)
    | Others(table: Table)

  predicate Owned(c: Chain) { !c.Foreign? && c != DnsLeaks }

  /** Other subsystems leave our chains alone and never jump into or out of them. */
  predicate OthersMay(t: Table, t': Table)
  {
    && JumpsResolve(t') && OwnJumpsOnly(t')
    && forall c :: c in t.Keys + t'.Keys && Owned(c) ==> c in t && c in t' && t'[c] == t[c]
  }

  /** One thread turns the firewall on and off and sets the split-tunnel mode; applies and exception lists may come
      from any thread at any point. */
  predicate CanHappen(s: Sys, e: Event)
  {
    match e
    case Enable(fw, _) => s.phase.Idle? && FirewallRules(fw)
    case DisableFirst(_) => s.phase.Idle?
    case DisableSecond(_) => s.phase.Between?
    case SetSplit(_, _) => s.phase.Idle?
    case Apply(_) => true
    case SetIps(_, _, _) => true
    case Others(t) => OthersMay(s.table, t)
  }

  function AfterApply(s: Sys, env: Env, accepted: bool): (Sys, bool)
  {
    var (t, ok) := RunTransaction(ApplyCommands(s.split, env), s.table, accepted);
    var phase := if ok && Active(s.split) && s.phase.Between? then Between(true) else s.phase;
    (s.(table := t, phase := phase), ok)
  }

  /** The effect of an event and the result reported to its caller. */
  function Step(s: Sys, env: Env, e: Event): (Sys, bool)
  {
    match e
    case Enable(fw, accepted) =>
      var (t, ok) := RunTransaction(EnableCommands(s.split, env, fw), s.table, accepted);
      (s.(table := t), ok)
    case DisableFirst(accepted) =>
      var (t, ok) := RunTransaction(FirstTeardown(s.split.connected), s.table, accepted);
      (s.(table := t, phase := if ok then Between(false) else Idle), ok)
    case DisableSecond(accepted) =>
      var (t, ok) := RunTransaction(SecondTeardown(), s.table, accepted);
      (s.(table := t, phase := Idle), ok)
    case Apply(accepted) => AfterApply(s, env, accepted)
    case SetSplit(split, accepted) => AfterApply(s.(split := split), env, accepted)
    case SetIps(ips, applyNow, accepted) =>
      var s' := s.(split := s.split.(ips := ips));
      if applyNow then AfterApply(s', env, accepted) else (s', true)
    case Others(t) => (s.(table := t), true)
  }

  predicate ValidRun(s: Sys, env: Env, es: seq<Event>)
    decreases |es|
  {
    es != [] ==> CanHappen(s, es[0]) && ValidRun(Step(s, env, es[0]).0, env, es[1..])
  }

  function Run(s: Sys, env: Env, es: seq<Event>): Sys
    decreases |es|
  {
    if es == [] then s else Run(Step(s, env, es[0]).0, env, es[1..])
  }

  /** Our chains are jumped to only from input to st_in and from output to st_out. */
  predicate OwnJumpsOnly(t: Table)
  {
    forall c, i :: c in t && 0 <= i < |t[c]| && t[c][i].Jump? ==>
      || (!Owned(c) && !Owned(t[c][i].target) && t[c][i].target != DnsLeaks)
      || (c == Input && t[c][i].target == StIn)
      || (c == Output && t[c][i].target == StOut)
  }

  predicate Inv(s: Sys)
  {
    && JumpsResolve(s.table) && OwnJumpsOnly(s.table)
    && (s.phase.Between? ==>
      && Input !in s.table && Output !in s.table
      && (StRouteOut in s.table <==> s.phase.interfered)
      && (StNatPost in s.table <==> s.phase.interfered)
      && (StPreCm in s.table <==> s.phase.interfered))
  }

  lemma RulesAreExprs(s: Split, env: Env)
    ensures forall c, i :: 0 <= i < |ActiveRules(s, env, c)| ==> !ActiveRules(s, env, c)[i].Jump?
  {
    forall c, i | 0 <= i < |ActiveRules(s, env, c)| ensures !ActiveRules(s, env, c)[i].Jump? {
      ExceptionsAreExprs(s.ips, true);
      ExceptionsAreExprs(s.ips, false);
      OnlyExprs(s, env);
    }
  }

  lemma {:induction false} ExceptionsAreExprs(ips: seq<IpRange>, incoming: bool)
    ensures forall i :: 0 <= i < |IpExceptions(ips, incoming)| ==> !IpExceptions(ips, incoming)[i].Jump?
  {
    if ips != [] {
      ExceptionsAreExprs(ips[1..], incoming);
    }
  }

  lemma SplitKeepsOwnJumps(t: Table, s: Split, env: Env)
    requires OwnJumpsOnly(t)
    ensures OwnJumpsOnly(WithSplit(t, s, env))
  {
    hide Exceptions, NatRules, RouteRules, MarkRules;
    RulesAreExprs(s, env);
    assert ActiveRules(s, env, StIn) == Exceptions(s, env, true);
    assert ActiveRules(s, env, StOut) == Exceptions(s, env, false);
    assert ActiveRules(s, env, StRouteOut) == RouteRules(s, env);
    assert ActiveRules(s, env, StNatPost) == NatRules(s, env);
    assert ActiveRules(s, env, StPreCm) == MarkRules(s, env);
  }

  lemma {:induction false} FirewallRulesAreExprs(fw: seq<Cmd>, c: Chain)
    requires FirewallRules(fw)
    ensures forall i :: 0 <= i < |RulesFor(fw, c)| ==> !RulesFor(fw, c)[i].Jump?
  {
    if fw != [] {
      assert fw[0] in fw;
      FirewallRulesAreExprs(fw[1..], c);
    }
  }

  lemma ApplyKeepsInv(s: Sys, env: Env, accepted: bool)
    requires Inv(s)
    ensures Inv(AfterApply(s, env, accepted).0)
    ensures forall c :: c in s.table ==> c in AfterApply(s, env, accepted).0.table
    ensures AfterApply(s, env, accepted).1 == accepted
    ensures accepted ==> AfterApply(s, env, accepted).0.table == WithSplit(s.table, s.split, env)
  {
    hide Exec, ApplyCommands, Exceptions, NatRules, RouteRules, MarkRules, OwnJumpsOnly, JumpsResolve;
    ApplyEffect(s.split, env, Work(s.table, Targets(s.table)));
    TransactionsKeepJumpsResolved(ApplyCommands(s.split, env), s.table, accepted);
    SplitKeepsOwnJumps(s.table, s.split, env);
  }

  lemma EnableKeepsInv(s: Sys, env: Env, fw: seq<Cmd>, accepted: bool)
    requires Inv(s) && s.phase.Idle? && FirewallRules(fw)
    ensures var (s', ok) := Step(s, env, Enable(fw, accepted));
      && Inv(s') && (forall c :: c in s.table ==> c in s'.table) && ok == accepted
      && (accepted ==> s'.table == WithFirewall(s.table, s.split, env, fw))
  {
    hide Exec, EnableCommands, WithSplit, JumpsResolve, RulesFor;
    EnableEffect(s.split, env, fw, Work(s.table, Targets(s.table)));
    TransactionsKeepJumpsResolved(EnableCommands(s.split, env, fw), s.table, accepted);
    SplitKeepsOwnJumps(s.table, s.split, env);
    FirewallRulesAreExprs(fw, Input);
    FirewallRulesAreExprs(fw, Output);
    SplitKeepsChains(s.table, s.split, env);
  }

  lemma SplitKeepsChains(t: Table, s: Split, env: Env)
    ensures forall c :: c in t ==> c in WithSplit(t, s, env)
  {
  }

  /** Nothing the first transaction deletes is ever jumped to. */
  lemma FirstTeardownEffect(s: Sys, env: Env, accepted: bool)
    requires Inv(s)
    ensures var (s', ok) := Step(s, env, DisableFirst(accepted));
      && Inv(s') && ok == accepted
      && (accepted ==> s'.table == s.table - (set n | n in FirstDrops(s.split.connected)))
  {
    hide Exec, JumpsResolve, OwnJumpsOnly;
    var names := FirstDrops(s.split.connected);
    var w := Work(s.table, Targets(s.table));
    ExecAddTable(DropAll(names), w);
    NeverTargets(s.table, names);
    DropAllEffect(names, w);
    TransactionsKeepJumpsResolved(FirstTeardown(s.split.connected), s.table, accepted);
    FewerChainsKeepOwnJumps(s.table, set n | n in names);
  }

  lemma NeverTargets(t: Table, names: seq<Chain>)
    requires OwnJumpsOnly(t) && forall n :: n in names ==> n == DnsLeaks || (Owned(n) && n != StIn && n != StOut)
    ensures forall n :: n in names ==> n !in Targets(t)
  {
  }

  lemma FewerChainsKeepOwnJumps(t: Table, gone: set<Chain>)
    requires OwnJumpsOnly(t)
    ensures OwnJumpsOnly(t - gone)
  {
    assert forall c :: c in t - gone ==> c in t && (t - gone)[c] == t[c];
  }

  /** By the second transaction the chains it deletes have lost their last reference. */
  lemma SecondTeardownEffect(s: Sys, env: Env, accepted: bool)
    requires Inv(s) && s.phase.Between?
    ensures var (s', ok) := Step(s, env, DisableSecond(accepted));
      && Inv(s') && ok == accepted
      && (accepted ==> s'.table == s.table - {StIn, StOut})
  {
    hide Exec, JumpsResolve, OwnJumpsOnly;
    var names := [StIn, StOut];
    var w := Work(s.table, Targets(s.table));
    ExecAddTable(DropAll(names), w);
    DropAllEffect(names, w);
    assert (set n | n in names) == {StIn, StOut};
    TransactionsKeepJumpsResolved(SecondTeardown(), s.table, accepted);
    FewerChainsKeepOwnJumps(s.table, {StIn, StOut});
    UntargetedBetween(s.table);
  }

  lemma UntargetedBetween(t: Table)
    requires OwnJumpsOnly(t) && Input !in t && Output !in t
    ensures StIn !in Targets(t) && StOut !in Targets(t)
  {
  }

  lemma StepKeepsInv(s: Sys, env: Env, e: Event)
    requires Inv(s) && CanHappen(s, e)
    ensures Inv(Step(s, env, e).0)
  {
    hide WithSplit, OwnJumpsOnly, JumpsResolve, ApplyCommands, EnableCommands, FirstTeardown, SecondTeardown;
    match e {
      case Enable(fw, accepted) => EnableKeepsInv(s, env, fw, accepted);
      case DisableFirst(accepted) => FirstTeardownEffect(s, env, accepted);
      case DisableSecond(accepted) => SecondTeardownEffect(s, env, accepted);
      case Apply(accepted) => ApplyKeepsInv(s, env, accepted);
      case SetSplit(split, accepted) => ApplyKeepsInv(s.(split := split), env, accepted);
      case SetIps(ips, applyNow, accepted) =>
        if applyNow {
          ApplyKeepsInv(s.(split := s.split.(ips := ips)), env, accepted);
        }
      case Others(t) =>
    }
  }

  /** In every interleaving every jump names an existing chain, and input and output stay gone between the two
      transactions of a teardown. */
  lemma {:induction false} RunKeepsInv(s: Sys, env: Env, es: seq<Event>)
    requires Inv(s) && ValidRun(s, env, es)
    ensures Inv(Run(s, env, es))
    decreases |es|
  {
    if es != [] {
      hide Inv, CanHappen, Step;
      StepKeepsInv(s, env, es[0]);
      RunKeepsInv(Step(s, env, es[0]).0, env, es[1..]);
    }
  }

  /** MAIN RESULT. At any point of any interleaving either teardown transaction can only be refused from outside: no
      chain it deletes is still referenced. */
  lemma TeardownNeverBusy(s0: Sys, env: Env, es: seq<Event>, accepted: bool)
    requires Inv(s0) && ValidRun(s0, env, es)
    ensures var s := Run(s0, env, es);
      && (s.phase.Idle? ==> Step(s, env, DisableFirst(accepted)).1 == accepted)
      && (s.phase.Between? ==> Step(s, env, DisableSecond(accepted)).1 == accepted)
  {
    hide Inv, CanHappen, Step;
    RunKeepsInv(s0, env, es);
    var s := Run(s0, env, es);
    FirstTeardownEffect(s, env, accepted);
    if s.phase.Between? {
      SecondTeardownEffect(s, env, accepted);
    }
  }

  /** Only the first teardown transaction ever removes the drop-policy chains. */
  lemma OnlyDisableOpensTheFirewall(s: Sys, env: Env, e: Event, c: Chain)
    requires Inv(s) && CanHappen(s, e) && c in {Input, Output} && c in s.table
    ensures c !in Step(s, env, e).0.table <==> e.DisableFirst? && e.accepted
  {
    hide WithSplit, OwnJumpsOnly, JumpsResolve, ApplyCommands, EnableCommands, FirstTeardown, SecondTeardown;
    match e {
      case Enable(fw, accepted) => EnableKeepsInv(s, env, fw, accepted);
      case DisableFirst(accepted) => FirstTeardownEffect(s, env, accepted);
      case DisableSecond(accepted) => SecondTeardownEffect(s, env, accepted);
      case Apply(accepted) => ApplyKeepsInv(s, env, accepted);
      case SetSplit(split, accepted) => ApplyKeepsInv(s.(split := split), env, accepted);
      case SetIps(ips, applyNow, accepted) =>
        if applyNow {
          ApplyKeepsInv(s.(split := s.split.(ips := ips)), env, accepted);
        }
      case Others(t) =>
    }
  }

  predicate OwnChainLeft(t: Table) { exists c :: c in t && Owned(c) }

  /** MAIN RESULT. A teardown that reports success has always removed input, output, st_in and st_out, whatever ran in
      between; it leaves none of our chains if and only if no apply of an active split tunnel landed between its two
      transactions. */
  lemma DisableLeavesNothingIff(s0: Sys, env: Env, es: seq<Event>, accepted: bool)
    requires Inv(s0) && ValidRun(s0, env, es)
    requires Run(s0, env, es).phase.Between? && Step(Run(s0, env, es), env, DisableSecond(accepted)).1
    ensures var s := Run(s0, env, es);
      var t := Step(s, env, DisableSecond(accepted)).0.table;
      && Input !in t && Output !in t && StIn !in t && StOut !in t
      && (OwnChainLeft(t) <==> s.phase.interfered)
  {
    hide Step, CanHappen;
    RunKeepsInv(s0, env, es);
    var s := Run(s0, env, es);
    SecondTeardownEffect(s, env, accepted);
    var t := Step(s, env, DisableSecond(accepted)).0.table;
    if s.phase.interfered {
      assert StRouteOut in t && Owned(StRouteOut);
    }
  }

  /** The teardown has to be two transactions: in one, the jumps still counted at its start make it fail as a unit. */
  lemma OneTransactionWouldFail(t: Table, connected: bool, accepted: bool)
    requires Input in t && Jump(StIn) in t[Input]
    ensures RunTransaction([AddTable] + DropAll(FirstDrops(connected) + [StIn, StOut]), t, accepted) == (t, false)
  {
    hide Exec;
    var names := FirstDrops(connected) + [StIn, StOut];
    var w := Work(t, Targets(t));
    JumpIsTarget(t, Input, Jump(StIn));
    ExecAddTable(DropAll(names), w);
    DropAllEffect(names, w);
    assert StIn in names && StIn in w.referenced;
  }

  predicate SameChain(t: Table, t': Table, c: Chain) { (c in t <==> c in t') && (c in t ==> t'[c] == t[c]) }

  /** The first transaction of a teardown takes the DNS-leak chain along exactly while not connected, and no chain of
      anybody else. */
  lemma TeardownAndDnsLeaks(s: Sys, env: Env, accepted: bool)
    requires Inv(s) && Step(s, env, DisableFirst(accepted)).1
    ensures var t := Step(s, env, DisableFirst(accepted)).0.table;
      && (if s.split.connected then SameChain(s.table, t, DnsLeaks) else DnsLeaks !in t)
      && forall name :: SameChain(s.table, t, Foreign(name))
  {
    hide Inv, Step;
    FirstTeardownEffect(s, env, accepted);
  }

  /** After an enable that reports success the drop-policy chains hold the firewall rules and then the jump, and each
      split-tunnel chain is at its intended contents. */
  lemma EnableInstalls(s: Sys, env: Env, fw: seq<Cmd>, accepted: bool)
    requires Inv(s) && s.phase.Idle? && FirewallRules(fw) && Step(s, env, Enable(fw, accepted)).1
    ensures var t := Step(s, env, Enable(fw, accepted)).0.table;
      && Input in t && t[Input] == RulesFor(fw, Input) + [Jump(StIn)]
      && Output in t && t[Output] == RulesFor(fw, Output) + [Jump(StOut)]
      && StIn in t && t[StIn] == Exceptions(s.split, env, true)
      && StOut in t && t[StOut] == Exceptions(s.split, env, false)
      && (Active(s.split) ==>
           StRouteOut in t && StNatPost in t && StPreCm in t && t[StRouteOut] == RouteRules(s.split, env) &&
           t[StNatPost] == NatRules(s.split, env) && t[StPreCm] == MarkRules(s.split, env))
      && SameChain(s.table, t, DnsLeaks) && forall name :: SameChain(s.table, t, Foreign(name))
  {
    hide Exec, EnableCommands, RulesFor, Exceptions, NatRules, RouteRules, MarkRules;
    EnableKeepsInv(s, env, fw, accepted);
  }
}
