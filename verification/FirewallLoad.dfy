/** Running the rendered commands: nft never meets an undeclared name, and the
    table ends up holding exactly the rendered chains. */
module FirewallLoad {
  import opened Ipv4
  import opened Nft
  import opened FirewallConfig
  import opened FirewallRender
  import opened Options

  function Declared(t: Table): Table {
    if t.Absent? then Table(map[], map[], {}) else t.(chains := map c | c in t.chains :: [])
  }

  function WithSet(sets: map<SetName, set<Cidr>>, s: SetName): map<SetName, set<Cidr>> {
    if s in sets then sets else sets[s := {}]
  }

  function AllSets(sets: map<SetName, set<Cidr>>): map<SetName, set<Cidr>> {
    WithSet(WithSet(WithSet(WithSet(sets, Bans), Allow), Deny), Scan)
  }

  function NetSet(ns: seq<Cidr>): set<Cidr> {
    set n | n in ns
  }

  /** The table after the commands that precede the rules. Elements that are
      already in a set stay there. */
  function Prepared(p: Plan, t: Table): Table
    requires t.Table?
  {
    var sets := AllSets(t.sets);
    t.(chains := AllChains(t.chains, p.wan),
       sets := sets[Allow := sets[Allow] + NetSet(ValidNets(p.cfg.allowCidrs))]
                   [Deny := sets[Deny] + NetSet(ValidNets(p.cfg.denyCidrs))],
       counters := t.counters + CounterNames(p))
  }

  function WithRules(chains: map<Chain, seq<Rule>>, input: seq<Rule>, forwarded: seq<Rule>, dnat: seq<Rule>)
    : map<Chain, seq<Rule>>
  {
    var both := chains[Input := input][Forward := forwarded];
    if dnat == [] then both else both[Prerouting := dnat]
  }

  function Filled(p: Plan, t0: Table): Table
    requires t0.Table?
  {
    var t1 := Prepared(p, t0);
    t1.(chains := WithRules(t1.chains, InputRules(p), ForwardChain(p), PreroutingChain(p)))
  }

  function Loaded(p: Plan, t: Table): Table {
    var t0 := Declared(t);
    if !p.cfg.enabled then t0
    else Filled(p, t0)
  }

  lemma {:induction false} RulesLoad(chain: Chain, rules: seq<Rule>, t: Table)
    requires t.Table? && chain in t.chains
    requires forall r <- rules :: t.Knows(r)
    ensures RunAll(RuleCommands(chain, rules), t) ==
            Some(t.(chains := t.chains[chain := t.chains[chain] + rules]))
  {
    if rules == [] {
      assert t.chains[chain] + rules == t.chains[chain];
      assert t.chains[chain := t.chains[chain]] == t.chains;
    } else {
      var cmds := RuleCommands(chain, rules);
      assert cmds[1..] == RuleCommands(chain, rules[1..]);
      var t' := t.(chains := t.chains[chain := t.chains[chain] + [rules[0]]]);
      assert rules[0] in rules;
      assert Run(cmds[0], t) == Some(t');
      forall r | r in rules[1..] ensures t'.Knows(r) {
        assert r in rules && t.Knows(r);
      }
      RulesLoad(chain, rules[1..], t');
      assert t.chains[chain] + [rules[0]] + rules[1..] == t.chains[chain] + rules;
      assert t'.chains[chain := t.chains[chain] + rules] == t.chains[chain := t.chains[chain] + rules];
    }
  }

  lemma RunOne(c: Command, t: Table)
    ensures RunAll([c], t) == Run(c, t)
  {
    match Run(c, t)
    case None =>
    case Some(t') => assert RunAll([], t') == Some(t');
  }

  lemma RunPrefix(a: seq<Command>, b: seq<Command>, t: Table, t': Table)
    requires RunAll(a, t) == Some(t')
    ensures RunAll(a + b, t) == RunAll(b, t')
  {
    RunAllAppend(a, b, t);
  }

  function WithChain(chains: map<Chain, seq<Rule>>, c: Chain): map<Chain, seq<Rule>> {
    if c in chains then chains else chains[c := []]
  }

  function AllChains(chains: map<Chain, seq<Rule>>, wan: bool): map<Chain, seq<Rule>> {
    var both := WithChain(WithChain(chains, Input), Forward);
    if wan then WithChain(both, Prerouting) else both
  }

  lemma ChainsDeclared(wan: bool, t: Table)
    requires t.Table?
    ensures RunAll([AddChain(Input), AddChain(Forward)] + (if wan then [AddChain(Prerouting)] else []), t) ==
            Some(t.(chains := AllChains(t.chains, wan)))
  {
    var last := if wan then [AddChain(Prerouting)] else [];
    var t1 := t.(chains := WithChain(t.chains, Input));
    var t2 := t1.(chains := WithChain(t1.chains, Forward));
    RunOne(AddChain(Input), t);
    RunPrefix([AddChain(Input)], [AddChain(Forward)] + last, t, t1);
    RunOne(AddChain(Forward), t1);
    RunPrefix([AddChain(Forward)], last, t1, t2);
    RunOne(AddChain(Prerouting), t2);
    assert [AddChain(Input), AddChain(Forward)] + last == [AddChain(Input)] + ([AddChain(Forward)] + last);
  }

  lemma SetsDeclared(t: Table)
    requires t.Table?
    ensures RunAll([AddSet(Bans), AddSet(Allow), AddSet(Deny), AddSet(Scan)], t) == Some(t.(sets := AllSets(t.sets)))
  {
    var t1 := t.(sets := WithSet(t.sets, Bans));
    var t2 := t1.(sets := WithSet(t1.sets, Allow));
    var t3 := t2.(sets := WithSet(t2.sets, Deny));
    var t4 := t3.(sets := WithSet(t3.sets, Scan));
    RunOne(AddSet(Bans), t);
    RunOne(AddSet(Allow), t1);
    RunOne(AddSet(Deny), t2);
    RunOne(AddSet(Scan), t3);
    RunPrefix([AddSet(Bans)], [AddSet(Allow), AddSet(Deny), AddSet(Scan)], t, t1);
    RunPrefix([AddSet(Allow)], [AddSet(Deny), AddSet(Scan)], t1, t2);
    RunPrefix([AddSet(Deny)], [AddSet(Scan)], t2, t3);
    assert [AddSet(Bans), AddSet(Allow), AddSet(Deny), AddSet(Scan)]
        == [AddSet(Bans)] + [AddSet(Allow), AddSet(Deny), AddSet(Scan)];
    assert [AddSet(Allow), AddSet(Deny), AddSet(Scan)] == [AddSet(Allow)] + [AddSet(Deny), AddSet(Scan)];
    assert [AddSet(Deny), AddSet(Scan)] == [AddSet(Deny)] + [AddSet(Scan)];
  }

  lemma ElementsLoad(s: SetName, ns: seq<Cidr>, t: Table)
    requires t.Table? && s in t.sets
    ensures RunAll(ElementCommands(s, ns), t) == Some(t.(sets := t.sets[s := t.sets[s] + NetSet(ns)]))
  {
    if ns == [] {
      assert t.sets[s] + NetSet(ns) == t.sets[s];
      assert t.sets[s := t.sets[s]] == t.sets;
    } else {
      RunOne(AddElements(s, ns), t);
    }
  }

  lemma PreambleLoads(p: Plan, t: Table)
    requires t.Table?
    ensures RunAll(Preamble(p), t) == Some(Prepared(p, t))
  {
    var chains := [AddChain(Input), AddChain(Forward)] + (if p.wan then [AddChain(Prerouting)] else []);
    var sets := [AddSet(Bans), AddSet(Allow), AddSet(Deny), AddSet(Scan)];
    var allow := ElementCommands(Allow, ValidNets(p.cfg.allowCidrs));
    var deny := ElementCommands(Deny, ValidNets(p.cfg.denyCidrs));
    var counters := [AddCounters(CounterNames(p))];
    assert Preamble(p) == chains + (sets + (allow + (deny + counters)));
    var t1 := t.(chains := AllChains(t.chains, p.wan));
    var t2 := t1.(sets := AllSets(t.sets));
    var t3 := t2.(sets := t2.sets[Allow := t2.sets[Allow] + NetSet(ValidNets(p.cfg.allowCidrs))]);
    var t4 := t3.(sets := t3.sets[Deny := t3.sets[Deny] + NetSet(ValidNets(p.cfg.denyCidrs))]);
    ChainsDeclared(p.wan, t);
    RunPrefix(chains, sets + (allow + (deny + counters)), t, t1);
    SetsDeclared(t1);
    RunPrefix(sets, allow + (deny + counters), t1, t2);
    ElementsLoad(Allow, ValidNets(p.cfg.allowCidrs), t2);
    RunPrefix(allow, deny + counters, t2, t3);
    ElementsLoad(Deny, ValidNets(p.cfg.denyCidrs), t3);
    RunPrefix(deny, counters, t3, t4);
    RunOne(AddCounters(CounterNames(p)), t4);
  }

  // ---- Every name is declared ------------------------------------------------------

  predicate Counted(rules: seq<Rule>, names: set<Counter>) {
    forall r <- rules :: r.counter.Some? ==> r.counter.value in names
  }

  lemma CountedAppend(a: seq<Rule>, b: seq<Rule>, names: set<Counter>)
    requires Counted(a, names) && Counted(b, names)
    ensures Counted(a + b, names)
  {
    assert forall r :: r in a + b <==> r in a || r in b;
  }

  lemma {:induction false} CustomCounted(rs: seq<CustomRule>, chain: Chain, names: set<Counter>)
    requires forall i :: 0 <= i < |rs| && rs[i].log ==> CustomHits(i) in names
    ensures Counted(CustomRules(rs, chain), names)
  {
    if rs != [] {
      var l := |rs| - 1;
      CustomCounted(rs[..l], chain, names);
      CountedAppend(CustomRules(rs[..l], chain), if OnChain(rs[l], chain) then [CustomRuleOf(rs[l], l)] else [], names);
    }
  }

  lemma {:induction false} ForwardsCounted(fs: seq<PortForward>, names: set<Counter>)
    requires forall i :: 0 <= i < |fs| && Forwardable(fs[i]) ==> ForwardHits(i) in names
    ensures Counted(ForwardRules(fs), names) && Counted(DnatRules(fs), names)
  {
    if fs != [] {
      var l := |fs| - 1;
      ForwardsCounted(fs[..l], names);
      CountedAppend(ForwardRules(fs[..l]), if Forwardable(fs[l]) then [ForwardRule(fs[l], l)] else [], names);
      CountedAppend(DnatRules(fs[..l]), if Dnatable(fs[l]) then [DnatRule(fs[l], l)] else [], names);
    }
  }

  lemma {:induction false} PlainCounted(nets: seq<Cidr>, boxIps: seq<AddrText>, ss: seq<Service>, names: set<Counter>)
    ensures Counted(SaddrRules(nets), names) && Counted(BoxRules(boxIps), names) && Counted(ServiceRules(ss), names)
  {
    if boxIps != [] {
      PlainCounted(nets, boxIps[..|boxIps| - 1], ss, names);
    }
  }

  lemma InputCounted(p: Plan)
    ensures Counted(InputRules(p), CounterNames(p))
  {
    var names := CounterNames(p);
    PlainCounted(p.nets, p.boxIps, p.cfg.services, names);
    CustomCounted(p.cfg.rules, Input, names);
    var trust := InputTrust(p);
    assert Counted(trust, names);
    var a := trust + GeoRules(p) + [DENY_RULE, ALLOW_RULE];
    CountedAppend(trust, GeoRules(p), names);
    CountedAppend(trust + GeoRules(p), [DENY_RULE, ALLOW_RULE], names);
    CountedAppend(a, ServiceRules(p.cfg.services), names);
    CountedAppend(a + ServiceRules(p.cfg.services), CustomRules(p.cfg.rules, Input), names);
    var b := a + ServiceRules(p.cfg.services) + CustomRules(p.cfg.rules, Input);
    CountedAppend(b, [BAN_RULE, TAILSCALE_RULE], names);
    CountedAppend(b + [BAN_RULE, TAILSCALE_RULE], InputEdge(p), names);
    CountedAppend(b + [BAN_RULE, TAILSCALE_RULE] + InputEdge(p), SynGuard(p), names);
  }

  lemma ForwardCounted(p: Plan)
    ensures Counted(ForwardChain(p), CounterNames(p)) && Counted(PreroutingChain(p), CounterNames(p))
  {
    var names := CounterNames(p);
    PlainCounted(p.nets, [], [], names);
    CustomCounted(p.cfg.rules, Forward, names);
    if p.wan {
      ForwardsCounted(p.cfg.forwards, names);
    }
    var est := [Rule([CtEstablishedOrRelated], None, Accept)];
    CountedAppend(est, SaddrRules(p.nets), names);
    CountedAppend(est + SaddrRules(p.nets), GeoRules(p), names);
    var a := est + SaddrRules(p.nets) + GeoRules(p);
    CountedAppend(a, [DENY_RULE, ALLOW_RULE], names);
    CountedAppend(a + [DENY_RULE, ALLOW_RULE], CustomRules(p.cfg.rules, Forward), names);
    var b := a + [DENY_RULE, ALLOW_RULE] + CustomRules(p.cfg.rules, Forward);
    CountedAppend(b, ForwardEdge(p), names);
    CountedAppend(b + ForwardEdge(p), [BAN_RULE], names);
    CountedAppend(b + ForwardEdge(p) + [BAN_RULE], ForwardDefault(p), names);
    CountedAppend(b + ForwardEdge(p) + [BAN_RULE] + ForwardDefault(p), SynGuard(p), names);
  }

  lemma KnownWhenCounted(rules: seq<Rule>, t: Table)
    requires t.Table? && Counted(rules, t.counters)
    requires Bans in t.sets && Allow in t.sets && Deny in t.sets && Scan in t.sets
    ensures forall r <- rules :: t.Knows(r)
  {
    forall r | r in rules ensures t.Knows(r) {
      forall m | m in r.matches && m.SaddrIn? ensures m.name in t.sets {
        assert m.name == Bans || m.name == Allow || m.name == Deny || m.name == Scan;
      }
    }
  }

  lemma CountedMono(rules: seq<Rule>, a: set<Counter>, b: set<Counter>)
    requires Counted(rules, a) && a <= b
    ensures Counted(rules, b)
  {
  }

  /** Whatever is in the kernel before, every rendered command succeeds: each
      chain, set and counter a rule names was added by an earlier command. The
      chains then hold the rendered rules and nothing else. */
  lemma RenderedLoads(p: Plan, t: Table)
    ensures RunAll(Rendered(p), t) == Some(Loaded(p, t))
  {
    HeadLoads(t);
    if p.cfg.enabled {
      RenderedParts(p);
      RunPrefix([AddTable, FlushTable], Body(p), t, Declared(t));
      BodyLoads(p, Declared(t));
    } else {
      assert Rendered(p) == [AddTable, FlushTable];
    }
  }

  function Body(p: Plan): seq<Command> {
    Preamble(p) + (RuleCommands(Input, InputRules(p)) + (RuleCommands(Forward, ForwardChain(p))
                   + RuleCommands(Prerouting, PreroutingChain(p))))
  }

  lemma RenderedParts(p: Plan)
    requires p.cfg.enabled
    ensures Rendered(p) == [AddTable, FlushTable] + Body(p)
  {
    SeqAssoc(Preamble(p), RuleCommands(Input, InputRules(p)), RuleCommands(Forward, ForwardChain(p)),
             RuleCommands(Prerouting, PreroutingChain(p)));
  }

  lemma SeqAssoc<T>(a: seq<T>, b: seq<T>, c: seq<T>, d: seq<T>)
    ensures a + b + c + d == a + (b + (c + d))
  {
  }

  lemma HeadLoads(t: Table)
    ensures RunAll([AddTable, FlushTable], t) == Some(Declared(t))
  {
    var t' := if t.Absent? then Table(map[], map[], {}) else t;
    RunOne(AddTable, t);
    RunOne(FlushTable, t');
    assert [AddTable, FlushTable] == [AddTable] + [FlushTable];
    RunPrefix([AddTable], [FlushTable], t, t');
    assert t.Absent? ==> (map c | c in t'.chains :: []) == t'.chains;
  }

  lemma BodyLoads(p: Plan, t0: Table)
    requires t0.Table? && forall c <- t0.chains :: t0.chains[c] == []
    ensures RunAll(Body(p), t0) == Some(Filled(p, t0))
  {
    InputCounted(p);
    ForwardCounted(p);
    assert !p.wan ==> PreroutingChain(p) == [];
    AnyBodyLoads(p, t0, InputRules(p), ForwardChain(p), PreroutingChain(p));
  }

  lemma AnyBodyLoads(p: Plan, t0: Table, input: seq<Rule>, forwarded: seq<Rule>, dnat: seq<Rule>)
    requires t0.Table? && forall c <- t0.chains :: t0.chains[c] == []
    requires Counted(input, CounterNames(p)) && Counted(forwarded, CounterNames(p)) && Counted(dnat, CounterNames(p))
    requires dnat != [] ==> p.wan
    ensures var t1 := Prepared(p, t0);
            RunAll(Preamble(p) + (RuleCommands(Input, input) + (RuleCommands(Forward, forwarded)
                   + RuleCommands(Prerouting, dnat))), t0)
            == Some(t1.(chains := WithRules(t1.chains, input, forwarded, dnat)))
  {
    var t1 := Prepared(p, t0);
    PreambleLoads(p, t0);
    RunPrefix(Preamble(p), RuleCommands(Input, input) + (RuleCommands(Forward, forwarded)
              + RuleCommands(Prerouting, dnat)), t0, t1);
    PreparedChains(p, t0);
    CountedMono(input, CounterNames(p), t1.counters);
    CountedMono(forwarded, CounterNames(p), t1.counters);
    CountedMono(dnat, CounterNames(p), t1.counters);
    ThreeChainsLoad(input, forwarded, dnat, t1);
  }

  lemma PreparedChains(p: Plan, t0: Table)
    requires t0.Table? && forall c <- t0.chains :: t0.chains[c] == []
    ensures var t1 := Prepared(p, t0);
            && t1.Table? && CounterNames(p) <= t1.counters
            && Input in t1.chains && Forward in t1.chains && (p.wan ==> Prerouting in t1.chains)
            && (forall c <- t1.chains :: t1.chains[c] == [])
            && Bans in t1.sets && Allow in t1.sets && Deny in t1.sets && Scan in t1.sets
  {
  }

  lemma ThreeChainsLoad(input: seq<Rule>, forwarded: seq<Rule>, dnat: seq<Rule>, t1: Table)
    requires t1.Table? && Input in t1.chains && Forward in t1.chains
    requires t1.chains[Input] == [] && t1.chains[Forward] == []
    requires if dnat == [] then t1.Rules(Prerouting) == [] else Prerouting in t1.chains && t1.chains[Prerouting] == []
    requires Bans in t1.sets && Allow in t1.sets && Deny in t1.sets && Scan in t1.sets
    requires Counted(input, t1.counters) && Counted(forwarded, t1.counters) && Counted(dnat, t1.counters)
    ensures RunAll(RuleCommands(Input, input) + (RuleCommands(Forward, forwarded) + RuleCommands(Prerouting, dnat)), t1)
            == Some(t1.(chains := WithRules(t1.chains, input, forwarded, dnat)))
  {
    var t2 := t1.(chains := t1.chains[Input := input]);
    var t3 := t2.(chains := t2.chains[Forward := forwarded]);
    assert [] + input == input && [] + forwarded == forwarded && [] + dnat == dnat;
    KnownWhenCounted(input, t1);
    RulesLoad(Input, input, t1);
    RunPrefix(RuleCommands(Input, input), RuleCommands(Forward, forwarded) + RuleCommands(Prerouting, dnat), t1, t2);
    KnownWhenCounted(forwarded, t2);
    RulesLoad(Forward, forwarded, t2);
    RunPrefix(RuleCommands(Forward, forwarded), RuleCommands(Prerouting, dnat), t2, t3);
    if dnat != [] {
      KnownWhenCounted(dnat, t3);
      RulesLoad(Prerouting, dnat, t3);
    }
  }

  // ---- Does the table implement the configuration? ------------------------------------

  /** The three chains of the table hold the rendered rules of `p`. */
  predicate Implements(t: Table, p: Plan) {
    && t.Rules(Input) == (if p.cfg.enabled then InputRules(p) else [])
    && t.Rules(Forward) == (if p.cfg.enabled then ForwardChain(p) else [])
    && t.Rules(Prerouting) == (if p.cfg.enabled then PreroutingChain(p) else [])
  }

  /** An address is on the table's deny (or allow) list exactly when the
      configuration lists it. */
  predicate ListsAgree(t: Table, p: Plan) {
    p.cfg.enabled ==>
      && t.Elements(Deny) == NetSet(ValidNets(p.cfg.denyCidrs))
      && t.Elements(Allow) == NetSet(ValidNets(p.cfg.allowCidrs))
  }

  lemma LoadedImplements(p: Plan, t: Table)
    ensures Implements(Loaded(p, t), p)
  {
    assert !p.wan ==> PreroutingChain(p) == [];
  }

  lemma LoadedElements(p: Plan, t: Table)
    requires p.cfg.enabled
    ensures Loaded(p, t).Elements(Deny) == t.Elements(Deny) + NetSet(ValidNets(p.cfg.denyCidrs))
    ensures Loaded(p, t).Elements(Allow) == t.Elements(Allow) + NetSet(ValidNets(p.cfg.allowCidrs))
    ensures Loaded(p, t).Elements(Bans) == t.Elements(Bans)
  {
    PreparedElements(p, Declared(t));
    assert Loaded(p, t).sets == Prepared(p, Declared(t)).sets;
  }

  lemma PreparedElements(p: Plan, t: Table)
    requires t.Table?
    ensures var t' := Prepared(p, t);
            && t'.Elements(Deny) == t.Elements(Deny) + NetSet(ValidNets(p.cfg.denyCidrs))
            && t'.Elements(Allow) == t.Elements(Allow) + NetSet(ValidNets(p.cfg.allowCidrs))
            && t'.Elements(Bans) == t.Elements(Bans)
  {
    var sets := AllSets(t.sets);
    AllSetsElements(t, Deny);
    AllSetsElements(t, Allow);
    AllSetsElements(t, Bans);
    var t' := Prepared(p, t);
    assert t'.sets[Deny] == sets[Deny] + NetSet(ValidNets(p.cfg.denyCidrs));
    assert t'.sets[Allow] == sets[Allow] + NetSet(ValidNets(p.cfg.allowCidrs));
    assert t'.sets[Bans] == sets[Bans];
  }

  lemma AllSetsElements(t: Table, s: SetName)
    requires t.Table?
    ensures s in AllSets(t.sets) && AllSets(t.sets)[s] == t.Elements(s)
  {
  }

  /** `flush table` keeps set elements, so reprogramming a live table leaves the
      old list entries behind. The lists agree exactly when every entry already
      in the kernel is in the new configuration too. */
  lemma StaleElements(p: Plan, t: Table)
    requires p.cfg.enabled
    ensures ListsAgree(Loaded(p, t), p) <==>
            && t.Elements(Deny) <= NetSet(ValidNets(p.cfg.denyCidrs))
            && t.Elements(Allow) <= NetSet(ValidNets(p.cfg.allowCidrs))
  {
    var deny, allow := NetSet(ValidNets(p.cfg.denyCidrs)), NetSet(ValidNets(p.cfg.allowCidrs));
    LoadedElements(p, t);
    assert t.Elements(Deny) <= deny <==> t.Elements(Deny) + deny == deny;
    assert t.Elements(Allow) <= allow <==> t.Elements(Allow) + allow == allow;
  }
}
