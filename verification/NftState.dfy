/** The Linux firewall's transactions: what each one sends to nftables and what it leaves in the table. */
module NftState {
  import opened Nft

  /** An address of the physical adapter, as written and as a number. */
  datatype Address = Address(text: string, bits: nat)

  const NO_ADDRESS: Address := Address("", 0)

  datatype Split = Split(
    connected: bool,
    enabled: bool,
    exclude: bool,
    ips: seq<IpRange>,
    adapter: string,
    adapterIp: Address,
    adapterIpV6: Address)

  /** The cgroup class and mark, and the two validators, which are outside this model. */
  datatype Env = Env(classid: string, mark: string, validIface: string -> bool, validIp: string -> bool)

  predicate Active(s: Split) { s.connected && s.enabled }

  // --- What each split-tunnel chain should hold ---

  predicate AdapterValid(s: Split, env: Env) { s.adapter != "" && env.validIface(s.adapter) }

  predicate HasV4(s: Split, env: Env) { env.validIp(s.adapterIp.text) }
  predicate HasV6(s: Split, env: Env) { env.validIp(s.adapterIpV6.text) }

  function IpRule(ip: IpRange, incoming: bool): Rule
  {
    Expr([if incoming then Source(ip) else Destination(ip)], Accept)
  }

  function IpExceptions(ips: seq<IpRange>, incoming: bool): seq<Rule>
  {
    if ips == [] then []
    else (if ips[0].valid then [IpRule(ips[0], incoming)] else []) + IpExceptions(ips[1..], incoming)
  }

  function CgroupAccept(env: Env): Rule { Expr([Cgroup(true, env.classid)], Accept) }

  const ACCEPT_ALL: Rule := Expr([], Accept)

  /** The exceptions to the drop policy, by source address on the way in and by destination on the way out. */
  function Exceptions(s: Split, env: Env, incoming: bool): seq<Rule>
  {
    if !Active(s) then []
    else if s.exclude then IpExceptions(s.ips, incoming) + [CgroupAccept(env)]
    else [ACCEPT_ALL]
  }

  function MasqueradeRule(same: bool, s: Split, env: Env): Rule
  {
    Expr([Cgroup(same, env.classid), OutInterface(s.adapter)], Masquerade)
  }

  function NatRules(s: Split, env: Env): seq<Rule>
  {
    if AdapterValid(s, env) then [MasqueradeRule(s.exclude, s, env)] else []
  }

  function RouteRules(s: Split, env: Env): seq<Rule>
  {
    if s.exclude then [Expr([Cgroup(true, env.classid)], SetMark(env.mark))]
    else if HasV4(s, env) || HasV6(s, env) then
      [Expr([], RestoreMark), Expr([Cgroup(false, env.classid)], SetMark(env.mark))]
    else []
  }

  function ReplyRule(v6: bool, a: Address, env: Env): Rule
  {
    Expr([Destination(IpRange(true, v6, a.text, a.bits, a.bits))], SetConnMark(env.mark))
  }

  function MarkRules(s: Split, env: Env): seq<Rule>
  {
    if s.exclude then []
    else
      (if HasV4(s, env) then [ReplyRule(false, s.adapterIp, env)] else []) +
      (if HasV6(s, env) then [ReplyRule(true, s.adapterIpV6, env)] else [])
  }

  // --- The commands sent ---

  function IpCommands(ips: seq<IpRange>): seq<Cmd>
  {
    if ips == [] then []
    else
      (if ips[0].valid then [AddRule(StIn, IpRule(ips[0], true)), AddRule(StOut, IpRule(ips[0], false))] else []) +
      IpCommands(ips[1..])
  }

  function On(chain: Chain, rules: seq<Rule>): (cmds: seq<Cmd>)
    ensures |cmds| == |rules| && forall i :: 0 <= i < |rules| ==> cmds[i] == AddRule(chain, rules[i])
  {
    seq(|rules|, i requires 0 <= i < |rules| => AddRule(chain, rules[i]))
  }

  function MiddleAndEnd(s: Split, env: Env): seq<Cmd>
  {
    if s.exclude then IpCommands(s.ips) + [AddRule(StIn, CgroupAccept(env)), AddRule(StOut, CgroupAccept(env))]
    else On(StPreCm, MarkRules(s, env)) + [AddRule(StIn, ACCEPT_ALL), AddRule(StOut, ACCEPT_ALL)]
  }

  function ActiveCommands(s: Split, env: Env): seq<Cmd>
  {
    On(StNatPost, NatRules(s, env)) + On(StRouteOut, RouteRules(s, env)) + MiddleAndEnd(s, env)
  }

  function ActiveChains(): seq<Cmd>
  {
    EnsureChain(StRouteOut) + EnsureChain(StNatPost) + EnsureChain(StPreCm)
  }

  function SplitCommands(s: Split, env: Env): seq<Cmd>
  {
    EnsureChain(StIn) + EnsureChain(StOut) + if Active(s) then ActiveChains() + ActiveCommands(s, env) else []
  }

  function ApplyCommands(s: Split, env: Env): seq<Cmd> { [AddTable] + SplitCommands(s, env) }

  /** Firewall rules as built from the intent: plain rules of the input and output chains. */
  predicate FirewallRules(fw: seq<Cmd>) { PlainRules(fw, {Input, Output}) }

  function EnableCommands(s: Split, env: Env, fw: seq<Cmd>): seq<Cmd>
  {
    ApplyCommands(s, env) + EnsureChain(Input) + EnsureChain(Output) + fw +
    [AddRule(Input, Jump(StIn)), AddRule(Output, Jump(StOut))]
  }

  function DropAll(names: seq<Chain>): seq<Cmd>
  {
    if names == [] then [] else DropChain(names[0]) + DropAll(names[1..])
  }

  function FirstDrops(connected: bool): seq<Chain>
  {
    [Input, Output, StRouteOut, StNatPost, StPreCm] + if connected then [] else [DnsLeaks]
  }

  function FirstTeardown(connected: bool): seq<Cmd> { [AddTable] + DropAll(FirstDrops(connected)) }

  function SecondTeardown(): seq<Cmd> { [AddTable] + DropAll([StIn, StOut]) }

  // --- What the split-tunnel commands do to a table ---

  /** The table with every split-tunnel chain at its intended contents. */
  function WithSplit(t: Table, s: Split, env: Env): Table
  {
    var exceptions := t[StIn := Exceptions(s, env, true)][StOut := Exceptions(s, env, false)];
    if Active(s) then
      exceptions[StRouteOut := RouteRules(s, env)][StNatPost := NatRules(s, env)][StPreCm := MarkRules(s, env)]
    else exceptions
  }

  lemma {:induction false} OnRules(chain: Chain, rules: seq<Rule>, c: Chain)
    ensures RulesFor(On(chain, rules), c) == if c == chain then rules else []
  {
    if rules != [] {
      var cmds := On(chain, rules);
      assert cmds[1..] == On(chain, rules[1..]);
      OnRules(chain, rules[1..], c);
    }
  }

  lemma OnPlain(chain: Chain, rules: seq<Rule>, chains: set<Chain>)
    requires chain in chains && forall r :: r in rules ==> !r.Jump?
    ensures PlainRules(On(chain, rules), chains)
  {
  }

  lemma {:induction false} IpCommandsRules(ips: seq<IpRange>, c: Chain)
    ensures PlainRules(IpCommands(ips), {StIn, StOut})
    ensures RulesFor(IpCommands(ips), c) ==
      if c == StIn then IpExceptions(ips, true) else if c == StOut then IpExceptions(ips, false) else []
  {
    if ips != [] {
      IpCommandsRules(ips[1..], c);
      var pair := [AddRule(StIn, IpRule(ips[0], true)), AddRule(StOut, IpRule(ips[0], false))];
      if ips[0].valid {
        RulesForAppend(pair, IpCommands(ips[1..]), c);
        PairRules(pair[0].rule, pair[1].rule, c);
      } else {
        RulesForAppend([], IpCommands(ips[1..]), c);
      }
    }
  }

  lemma PairRules(a: Rule, b: Rule, c: Chain)
    ensures RulesFor([AddRule(StIn, a), AddRule(StOut, b)], c) ==
      if c == StIn then [a] else if c == StOut then [b] else []
  {
    var cmds := [AddRule(StIn, a), AddRule(StOut, b)];
    assert cmds[1..] == [AddRule(StOut, b)] && |cmds[1..][1..]| == 0;
    assert RulesFor(cmds[1..], c) == if c == StOut then [b] else [];
  }

  /** What an active split tunnel appends to each chain. */
  function ActiveRules(s: Split, env: Env, c: Chain): seq<Rule>
  {
    if c == StIn then Exceptions(s, env, true)
    else if c == StOut then Exceptions(s, env, false)
    else if c == StRouteOut then RouteRules(s, env)
    else if c == StNatPost then NatRules(s, env)
    else if c == StPreCm then MarkRules(s, env)
    else []
  }

  lemma ActiveCommandsRules(s: Split, env: Env, c: Chain)
    requires Active(s)
    ensures RulesFor(ActiveCommands(s, env), c) == ActiveRules(s, env, c)
  {
    hide RulesFor, MiddleAndEnd, On, RouteRules, NatRules, MarkRules, Exceptions;
    var masq, route := On(StNatPost, NatRules(s, env)), On(StRouteOut, RouteRules(s, env));
    RulesForAppend(masq + route, MiddleAndEnd(s, env), c);
    RulesForAppend(masq, route, c);
    OnRules(StNatPost, NatRules(s, env), c);
    OnRules(StRouteOut, RouteRules(s, env), c);
    MiddleRules(s, env, c);
  }

  lemma MiddleRules(s: Split, env: Env, c: Chain)
    requires Active(s)
    ensures RulesFor(MiddleAndEnd(s, env), c) ==
      if c == StIn then Exceptions(s, env, true) else if c == StOut then Exceptions(s, env, false)
      else if c == StPreCm then MarkRules(s, env) else []
  {
    hide RulesFor, IpCommands, IpExceptions, On;
    var last := if s.exclude then CgroupAccept(env) else ACCEPT_ALL;
    var ends := [AddRule(StIn, last), AddRule(StOut, last)];
    PairRules(last, last, c);
    if s.exclude {
      RulesForAppend(IpCommands(s.ips), ends, c);
      IpCommandsRules(s.ips, c);
    } else {
      RulesForAppend(On(StPreCm, MarkRules(s, env)), ends, c);
      OnRules(StPreCm, MarkRules(s, env), c);
    }
  }

  lemma ActiveCommandsPlain(s: Split, env: Env)
    ensures PlainRules(ActiveCommands(s, env), {StIn, StOut, StRouteOut, StNatPost, StPreCm})
  {
    hide IpCommands, On, PlainRules, NatRules, RouteRules, MarkRules;
    var all := {StIn, StOut, StRouteOut, StNatPost, StPreCm};
    var masq, route := On(StNatPost, NatRules(s, env)), On(StRouteOut, RouteRules(s, env));
    OnlyExprs(s, env);
    OnPlain(StNatPost, NatRules(s, env), all);
    OnPlain(StRouteOut, RouteRules(s, env), all);
    OnPlain(StPreCm, MarkRules(s, env), all);
    PlainAppend(masq, route, all);
    PlainMiddle(s, env, all);
    PlainAppend(masq + route, MiddleAndEnd(s, env), all);
  }

  lemma OnlyExprs(s: Split, env: Env)
    ensures forall r :: r in NatRules(s, env) || r in RouteRules(s, env) || r in MarkRules(s, env) ==> !r.Jump?
  {
  }

  lemma PlainMiddle(s: Split, env: Env, all: set<Chain>)
    requires all == {StIn, StOut, StRouteOut, StNatPost, StPreCm}
    ensures PlainRules(MiddleAndEnd(s, env), all)
  {
    hide IpCommands, On, MarkRules, PlainRules;
    var last := if s.exclude then CgroupAccept(env) else ACCEPT_ALL;
    PlainEnds(last, all);
    if s.exclude {
      PlainIps(s.ips, all);
      PlainAppend(IpCommands(s.ips), [AddRule(StIn, last), AddRule(StOut, last)], all);
    } else {
      OnlyExprs(s, env);
      OnPlain(StPreCm, MarkRules(s, env), all);
      PlainAppend(On(StPreCm, MarkRules(s, env)), [AddRule(StIn, last), AddRule(StOut, last)], all);
    }
  }

  lemma PlainEnds(r: Rule, all: set<Chain>)
    requires !r.Jump? && StIn in all && StOut in all
    ensures PlainRules([AddRule(StIn, r), AddRule(StOut, r)], all)
  {
  }

  lemma PlainIps(ips: seq<IpRange>, all: set<Chain>)
    requires StIn in all && StOut in all
    ensures PlainRules(IpCommands(ips), all)
  {
    hide IpCommands;
    IpCommandsRules(ips, StIn);
  }
}
