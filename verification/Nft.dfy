/** The helper's nftables table: chains, rules, jumps, and atomic transactions over them. */
module Nft {
  import opened Text

  /** The chains this firewall owns, the DNS-leak chain it may remove, and everybody else's. */
  datatype Chain = Input | Output | StIn | StOut | StRouteOut | StNatPost | StPreCm | DnsLeaks | Foreign(name: string)

  /** An address range with the family and the text it is written with. */
  datatype IpRange = IpRange(valid: bool, v6: bool, text: string, lo: nat, hi: nat)

  /** What a rule looks at: the sender's cgroup class, one end's address, the outgoing interface. */
  datatype Match =
    | Cgroup(same: bool, classid: string)
    | Source(range: IpRange)
    | Destination(range: IpRange)
    | OutInterface(name: string)

  datatype Act = Accept | Masquerade | SetMark(mark: string) | RestoreMark | SetConnMark(mark: string)

  /** A jump, an expression of the split tunnel, or a rule somebody else wrote. */
  datatype Rule = Jump(target: Chain) | Expr(matches: seq<Match>, act: Act) | Other(text: string)

  type Table = map<Chain, seq<Rule>>

  datatype Cmd =
    | AddTable
    | AddChain(chain: Chain)
    | FlushChain(chain: Chain)
    | DeleteChain(chain: Chain)
    | AddRule(chain: Chain, rule: Rule)

  /** Create if absent, then empty. */
  function EnsureChain(name: Chain): seq<Cmd> { [AddChain(name), FlushChain(name)] }

  /** Idempotent teardown: the add cannot fail, the delete then removes. */
  function DropChain(name: Chain): seq<Cmd> { [AddChain(name), DeleteChain(name)] }

  /** The chains jumped to from anywhere in the table. */
  function Targets(t: Table): set<Chain>
  {
    set c, i | c in t && 0 <= i < |t[c]| && t[c][i].Jump? :: t[c][i].target
  }

  /** A transaction in progress: the table so far, and the chains something has referenced since its start. */
  datatype Work = Work(table: Table, referenced: set<Chain>)

  /** One command; deleting a chain that was referenced at any time in the transaction is refused. */
  function ExecOne(cmd: Cmd, w: Work): Option<Work>
  {
    match cmd
    case AddTable => Some(w)
    case AddChain(c) => if c in w.table then Some(w) else Some(w.(table := w.table[c := []]))
    case FlushChain(c) => if c in w.table then Some(w.(table := w.table[c := []])) else None
    case DeleteChain(c) => if c in w.table && c !in w.referenced then Some(w.(table := w.table - {c})) else None
    case AddRule(c, r) =>
      if c !in w.table || (r.Jump? && r.target !in w.table) then None
      else
        Some(Work(w.table[c := w.table[c] + [r]], w.referenced + if r.Jump? then {r.target} else {}))
  }

  function Exec(cmds: seq<Cmd>, w: Work): Option<Work>
  {
    if cmds == [] then Some(w)
    else
      var next := ExecOne(cmds[0], w);
      if next.None? then None else Exec(cmds[1..], next.value)
  }

  /** What the commands alone would make of the table. */
  function Commit(cmds: seq<Cmd>, t: Table): Option<Table>
  {
    var w := Exec(cmds, Work(t, Targets(t)));
    if w.None? then None else Some(w.value.table)
  }

  /** An atomic run: it lands as a whole, or, refused by the commands or by anything else, changes nothing. */
  function RunTransaction(cmds: seq<Cmd>, t: Table, accepted: bool): (r: (Table, bool))
    ensures r.1 <==> accepted && Commit(cmds, t).Some?
    ensures if r.1 then Commit(cmds, t) == Some(r.0) else r.0 == t
  {
    var done := Commit(cmds, t);
    if accepted && done.Some? then (done.value, true) else (t, false)
  }

  lemma {:induction false} ExecAppend(a: seq<Cmd>, b: seq<Cmd>, w: Work)
    ensures Exec(a + b, w) == if Exec(a, w).None? then None else Exec(b, Exec(a, w).value)
  {
    if a == [] {
      assert a + b == b;
    } else {
      assert (a + b)[1..] == a[1..] + b;
      var next := ExecOne(a[0], w);
      if next.Some? {
        ExecAppend(a[1..], b, next.value);
      }
    }
  }

  lemma ExecEnsure(name: Chain, w: Work)
    ensures Exec(EnsureChain(name), w) == Some(w.(table := w.table[name := []]))
  {
    var cmds := EnsureChain(name);
    assert cmds[1..] == [FlushChain(name)] && |cmds[1..][1..]| == 0;
    var w1 := ExecOne(cmds[0], w).value;
    assert w1.table[name := []] == w.table[name := []];
    assert Exec(cmds[1..], w1) == Some(w1.(table := w1.table[name := []]));
  }

  lemma ExecDrop(name: Chain, w: Work)
    ensures Exec(DropChain(name), w) == if name in w.referenced then None else Some(w.(table := w.table - {name}))
  {
    var cmds := DropChain(name);
    assert cmds[1..] == [DeleteChain(name)] && |cmds[1..][1..]| == 0;
    var w1 := ExecOne(cmds[0], w).value;
    assert w1.table - {name} == w.table - {name};
    var w2 := ExecOne(DeleteChain(name), w1);
    assert Exec(cmds[1..], w1) == w2;
  }

  /** The rules a list of commands appends to one chain. */
  function RulesFor(cmds: seq<Cmd>, chain: Chain): seq<Rule>
  {
    if cmds == [] then []
    else (if cmds[0].AddRule? && cmds[0].chain == chain then [cmds[0].rule] else []) + RulesFor(cmds[1..], chain)
  }

  lemma {:induction false} RulesForAppend(a: seq<Cmd>, b: seq<Cmd>, chain: Chain)
    ensures RulesFor(a + b, chain) == RulesFor(a, chain) + RulesFor(b, chain)
  {
    if a == [] {
      assert a + b == b;
    } else {
      assert (a + b)[1..] == a[1..] + b;
      RulesForAppend(a[1..], b, chain);
    }
  }

  /** Plain rules for existing chains always land, each at the end of its chain. */
  predicate PlainRules(cmds: seq<Cmd>, chains: set<Chain>)
  {
    forall c :: c in cmds ==> c.AddRule? && !c.rule.Jump? && c.chain in chains
  }

  lemma PlainAppend(a: seq<Cmd>, b: seq<Cmd>, chains: set<Chain>)
    requires PlainRules(a, chains) && PlainRules(b, chains)
    ensures PlainRules(a + b, chains)
  {
  }

  function Appended(t: Table, cmds: seq<Cmd>): Table
  {
    map c | c in t :: t[c] + RulesFor(cmds, c)
  }

  lemma {:induction false} ExecPlainRules(cmds: seq<Cmd>, w: Work)
    requires PlainRules(cmds, w.table.Keys)
    ensures Exec(cmds, w) == Some(w.(table := Appended(w.table, cmds)))
  {
    if cmds == [] {
      AppendedNil(w.table);
    } else {
      hide Appended;
      var cmd := cmds[0];
      assert cmd in cmds;
      var w1 := ExecOne(cmd, w).value;
      assert w1.table.Keys == w.table.Keys && w1.referenced == w.referenced;
      ExecPlainRules(cmds[1..], w1);
      AppendedCons(w.table, cmd.chain, cmd.rule, cmds[1..]);
      assert cmds == [cmd] + cmds[1..];
    }
  }

  lemma AppendedNil(t: Table)
    ensures Appended(t, []) == t
  {
    forall c | c in t ensures t[c] + RulesFor([], c) == t[c] {
    }
  }

  lemma AppendedCons(t: Table, chain: Chain, r: Rule, rest: seq<Cmd>)
    requires chain in t
    ensures Appended(t[chain := t[chain] + [r]], rest) == Appended(t, [AddRule(chain, r)] + rest)
  {
    var t1 := t[chain := t[chain] + [r]];
    var cmds := [AddRule(chain, r)] + rest;
    assert cmds[1..] == rest;
    forall c | c in t ensures t1[c] + RulesFor(rest, c) == t[c] + RulesFor(cmds, c) {
      assert t[c] + ([r] + RulesFor(rest, c)) == t[c] + [r] + RulesFor(rest, c);
    }
  }

  // --- Tables in which every jump resolves ---

  predicate JumpsResolve(t: Table) { Targets(t) <= t.Keys }

  lemma JumpIsTarget(t: Table, c: Chain, r: Rule)
    requires c in t && r in t[c] && r.Jump?
    ensures r.target in Targets(t)
  {
    var i :| 0 <= i < |t[c]| && t[c][i] == r;
  }

  /** The references recorded during a transaction cover the jumps of the table, and resolve unless deleted. */
  predicate WorkInv(w: Work) { Targets(w.table) <= w.referenced && w.referenced <= w.table.Keys }

  lemma ExecOneKeeps(cmd: Cmd, w: Work)
    requires WorkInv(w) && ExecOne(cmd, w).Some?
    ensures WorkInv(ExecOne(cmd, w).value)
  {
    var w' := ExecOne(cmd, w).value;
    forall x | x in Targets(w'.table) ensures x in w'.referenced {
      var c, i :| c in w'.table && 0 <= i < |w'.table[c]| && w'.table[c][i].Jump? && w'.table[c][i].target == x;
      if c in w.table && i < |w.table[c]| && w.table[c][i] == w'.table[c][i] {
        JumpIsTarget(w.table, c, w.table[c][i]);
      }
    }
  }

  lemma {:induction false} ExecKeeps(cmds: seq<Cmd>, w: Work)
    requires WorkInv(w) && Exec(cmds, w).Some?
    ensures WorkInv(Exec(cmds, w).value)
  {
    if cmds != [] {
      ExecOneKeeps(cmds[0], w);
      ExecKeeps(cmds[1..], ExecOne(cmds[0], w).value);
    }
  }

  /** Whatever the commands, no transaction that lands leaves a jump without its chain. */
  lemma TransactionsKeepJumpsResolved(cmds: seq<Cmd>, t: Table, accepted: bool)
    requires JumpsResolve(t)
    ensures JumpsResolve(RunTransaction(cmds, t, accepted).0)
  {
    var w := Work(t, Targets(t));
    if Exec(cmds, w).Some? {
      ExecKeeps(cmds, w);
    }
  }
}
