/** render_commands: from a configuration and a topology to nft commands. */
module FirewallRender {
  import opened Ipv4
  import opened Nft
  import opened FirewallConfig
  import opened Options

  const TAILSCALE_PORT := 41641
  const DEFAULT_WEB_PORT := 8080

  // ---- One rule from one entry -------------------------------------------------

  function ProtoMatch(p: ProtoText): seq<Match> {
    match L4Of(p)
    case Some(l) => [Proto(l)]
    case None => []
  }

  function DportMatch(port: int, p: ProtoText): seq<Match> {
    if port == 0 then []
    else
      match L4Of(p)
      case Some(l) => [Dport(l, port)]
      case None => []
  }

  function SportMatch(port: int, p: ProtoText): seq<Match> {
    if port == 0 then []
    else
      match L4Of(p)
      case Some(l) => [Sport(l, port)]
      case None => []
  }

  function OutsideOf(nets: seq<Cidr>): seq<Match> {
    seq(|nets|, i requires 0 <= i < |nets| => SaddrNot(nets[i]))
  }

  function ServiceSource(s: Service): Cidr {
    if CidrOf(s.source).Some? then CidrOf(s.source).value else Everywhere()
  }

  function ServiceRule(s: Service): Rule {
    Rule(ProtoMatch(OrDefault(s.proto, TcpText))
         + [Saddr(ServiceSource(s))]
         + DportMatch(s.port, OrDefault(s.proto, AnyProto)),
         None, Accept)
  }

  function CustomRuleOf(r: CustomRule, i: nat): Rule {
    Rule((if CidrOf(r.src).Some? then [Saddr(CidrOf(r.src).value)] else [])
         + (if CidrOf(r.dst).Some? then [Daddr(CidrOf(r.dst).value)] else [])
         + ProtoMatch(r.proto) + SportMatch(r.srcPort, r.proto) + DportMatch(r.dstPort.Read(), r.proto),
         if r.log then Some(CustomHits(i)) else None,
         if r.action == AllowText then Accept else Drop)
  }

  predicate OnChain(r: CustomRule, chain: Chain) {
    (r.chain == OnInput && chain == Input) || (r.chain == OnForward && chain == Forward)
  }

  function ForwardRule(f: PortForward, i: nat): Rule
    requires f.targetIp.Host?
  {
    var p := OrDefault(f.proto, TcpText);
    Rule([Iif(Ppp0)] + ProtoMatch(p) + [Daddr(HostNet(f.targetIp.ip))]
         + DportMatch(f.targetPort, p) + [CtNew],
         Some(ForwardHits(i)), Accept)
  }

  function DnatRule(f: PortForward, i: nat): Rule
    requires f.targetIp.Host?
  {
    var p := OrDefault(f.proto, TcpText);
    Rule([Iif(Ppp0)] + ProtoMatch(p) + DportMatch(f.sourcePort, p),
         Some(ForwardHits(i)), Dnat(f.targetIp.ip, Some(f.targetPort)))
  }

  predicate Forwardable(f: PortForward) {
    f.targetIp.Host? && f.targetPort != 0
  }

  predicate Dnatable(f: PortForward) {
    f.targetIp.Host? && f.sourcePort != 0 && f.targetPort != 0
  }

  // ---- Lists of entries, as the loops build them --------------------------------

  function SaddrRules(nets: seq<Cidr>): seq<Rule> {
    seq(|nets|, i requires 0 <= i < |nets| => Rule([Saddr(nets[i])], None, Accept))
  }

  function BoxRules(boxIps: seq<AddrText>): seq<Rule> {
    if boxIps == [] then []
    else
      var l := |boxIps| - 1;
      BoxRules(boxIps[..l])
      + if boxIps[l].Host? then [Rule([Saddr(HostNet(boxIps[l].ip))], None, Accept)] else []
  }

  function ServiceRules(ss: seq<Service>): seq<Rule> {
    seq(|ss|, i requires 0 <= i < |ss| => ServiceRule(ss[i]))
  }

  function CustomRules(rs: seq<CustomRule>, chain: Chain): seq<Rule> {
    if rs == [] then []
    else
      var l := |rs| - 1;
      CustomRules(rs[..l], chain) + if OnChain(rs[l], chain) then [CustomRuleOf(rs[l], l)] else []
  }

  function ForwardRules(fs: seq<PortForward>): seq<Rule> {
    if fs == [] then []
    else
      var l := |fs| - 1;
      ForwardRules(fs[..l]) + if Forwardable(fs[l]) then [ForwardRule(fs[l], l)] else []
  }

  function DnatRules(fs: seq<PortForward>): seq<Rule> {
    if fs == [] then []
    else
      var l := |fs| - 1;
      DnatRules(fs[..l]) + if Dnatable(fs[l]) then [DnatRule(fs[l], l)] else []
  }

  function ValidNets(ts: seq<AddrText>): seq<Cidr> {
    if ts == [] then []
    else
      var l := |ts| - 1;
      ValidNets(ts[..l]) + if CidrOf(ts[l]).Some? then [CidrOf(ts[l]).value] else []
  }

  // ---- sorted(set(local_nets)) -----------------------------------------------------

  predicate Before(a: Cidr, b: Cidr) {
    a.base < b.base || (a.base == b.base && a.len < b.len)
  }

  function Insert(n: Cidr, sorted: seq<Cidr>): (r: seq<Cidr>)
    ensures forall m :: m in r <==> m == n || m in sorted
  {
    if sorted == [] then [n]
    else if n == sorted[0] then sorted
    else if Before(n, sorted[0]) then [n] + sorted
    else [sorted[0]] + Insert(n, sorted[1..])
  }

  function SortedUnique(nets: seq<Cidr>): (r: seq<Cidr>)
    ensures forall m :: m in r <==> m in nets
  {
    if nets == [] then [] else Insert(nets[0], SortedUnique(nets[1..]))
  }

  // ---- The three chains ---------------------------------------------------------

  /** What the renderer reads, after the defaults are merged in. */
  datatype Plan = Plan(cfg: Config, wan: bool, nets: seq<Cidr>, boxIps: seq<AddrText>, geo: seq<Cidr>, webPort: int) {
    predicate LanGuard() {
      !wan && !cfg.wanConfirmed && nets != []
    }

    function Rate(): int { if cfg.synRate == 0 then 10 else cfg.synRate }
    function Burst(): int { if cfg.synBurst == 0 then 20 else cfg.synBurst }
  }

  function PlanOf(raw: RawConfig, wan: bool, localNets: seq<Cidr>, boxIps: seq<AddrText>): Plan {
    var merged := MergeDefaults(raw);
    Plan(merged.cfg, wan, SortedUnique(localNets), boxIps, ValidNets(merged.geoCidrs),
         if merged.webPort == 0 then DEFAULT_WEB_PORT else merged.webPort)
  }

  function Loopback(): Cidr { Cidr(0x7f00_0000, 8) }

  function GeoRules(p: Plan): seq<Rule> {
    if p.geo == [] then [] else [Rule(OutsideOf(SortedUnique(p.geo)), Some(DenyDrop), Drop)]
  }

  function InputTrust(p: Plan): seq<Rule> {
    [Rule([CtEstablishedOrRelated], None, Accept),
     Rule([Iif(Lo)], None, Accept),
     Rule([Saddr(Loopback())], None, Accept),
     Rule([Iif(Tailscale0)], None, Accept)]
    + SaddrRules(p.nets) + BoxRules(p.boxIps)
  }

  const DENY_RULE: Rule := Rule([SaddrIn(Deny)], Some(DenyDrop), Drop)
  const ALLOW_RULE: Rule := Rule([SaddrIn(Allow)], None, Accept)
  const BAN_RULE: Rule := Rule([SaddrIn(Bans)], Some(BanDrop), Drop)
  const TAILSCALE_RULE: Rule := Rule([Dport(Udp, TAILSCALE_PORT)], None, Accept)

  function SynGuard(p: Plan): seq<Rule> {
    (if p.cfg.scanEnabled then [Rule([SynSet, CtNew], None, UpdateScan)] else [])
    + [Rule([BareSyn, CtNew, Limit(p.Rate(), p.Burst())], Some(SynPass), Accept),
       Rule([BareSyn, CtNew], Some(SynDrop), Drop)]
  }

  /** The dashboard clause. It must come before the SYN guard, which accepts new
      connections from any interface. */
  function InputEdge(p: Plan): seq<Rule> {
    if p.wan then
      (if p.cfg.wanConfirmed then [Rule([Iif(Ppp0), Dport(Tcp, p.webPort)], None, Accept)] else [])
      + [Rule([Iif(Ppp0), CtNew], Some(WanInDrop), Drop)]
    else if p.LanGuard() then
      [Rule([Dport(Tcp, p.webPort), CtNew] + OutsideOf(p.nets), Some(WanInDrop), Drop)]
    else []
  }

  function InputRules(p: Plan): seq<Rule> {
    InputTrust(p) + GeoRules(p) + [DENY_RULE, ALLOW_RULE] + ServiceRules(p.cfg.services)
    + CustomRules(p.cfg.rules, Input) + [BAN_RULE, TAILSCALE_RULE] + InputEdge(p) + SynGuard(p)
  }

  function DmzIp(p: Plan): Option<Addr> { IpOf(p.cfg.dmz) }

  function ForwardEdge(p: Plan): seq<Rule> {
    if !p.wan then []
    else
      ForwardRules(p.cfg.forwards)
      + if DmzIp(p).Some?
        then [Rule([Iif(Ppp0), Daddr(HostNet(DmzIp(p).value)), CtNew], Some(DmzHits), Accept)] else []
  }

  function ForwardDefault(p: Plan): seq<Rule> {
    if p.wan then [Rule([Iif(Ppp0), CtNew], Some(WanFwdDrop), Drop)] else []
  }

  function ForwardChain(p: Plan): seq<Rule> {
    [Rule([CtEstablishedOrRelated], None, Accept)] + SaddrRules(p.nets) + GeoRules(p)
    + [DENY_RULE, ALLOW_RULE] + CustomRules(p.cfg.rules, Forward)
    + ForwardEdge(p) + [BAN_RULE] + ForwardDefault(p) + SynGuard(p)
  }

  function DaddrOutside(nets: seq<Cidr>): seq<Match> {
    seq(|nets|, i requires 0 <= i < |nets| => DaddrNot(nets[i]))
  }

  function PreroutingChain(p: Plan): seq<Rule> {
    if !p.wan then []
    else
      DnatRules(p.cfg.forwards)
      + if DmzIp(p).Some?
        then [Rule([Iif(Ppp0)] + DaddrOutside(p.nets), Some(DmzHits), Dnat(DmzIp(p).value, None))] else []
  }

  // ---- The whole command list ----------------------------------------------------

  function CounterNames(p: Plan): set<Counter> {
    {DenyDrop, BanDrop, SynDrop, SynPass}
    + (if p.LanGuard() then {WanInDrop} else {})
    + (if p.wan then
         {WanInDrop, WanFwdDrop}
         + (set i | 0 <= i < |p.cfg.forwards| && Forwardable(p.cfg.forwards[i]) :: ForwardHits(i))
         + (if DmzIp(p).Some? then {DmzHits} else {})
       else {})
    + set i | 0 <= i < |p.cfg.rules| && p.cfg.rules[i].log :: CustomHits(i)
  }

  function RuleCommands(chain: Chain, rules: seq<Rule>): seq<Command> {
    seq(|rules|, i requires 0 <= i < |rules| => AddRule(chain, rules[i]))
  }

  function ElementCommands(name: SetName, elements: seq<Cidr>): seq<Command> {
    if elements == [] then [] else [AddElements(name, elements)]
  }

  function Preamble(p: Plan): seq<Command> {
    [AddChain(Input), AddChain(Forward)]
    + (if p.wan then [AddChain(Prerouting)] else [])
    + [AddSet(Bans), AddSet(Allow), AddSet(Deny), AddSet(Scan)]
    + ElementCommands(Allow, ValidNets(p.cfg.allowCidrs))
    + ElementCommands(Deny, ValidNets(p.cfg.denyCidrs))
    + [AddCounters(CounterNames(p))]
  }

  /** Every command that render_commands issues, in order. */
  function Rendered(p: Plan): seq<Command> {
    [AddTable, FlushTable]
    + if !p.cfg.enabled then []
      else Preamble(p) + RuleCommands(Input, InputRules(p)) + RuleCommands(Forward, ForwardChain(p))
           + RuleCommands(Prerouting, PreroutingChain(p))
  }

  // ---- The loops ------------------------------------------------------------------

  method RenderNets(nets: seq<Cidr>) returns (rules: seq<Rule>)
    ensures rules == SaddrRules(nets)
  {
    rules := [];
    for i := 0 to |nets|
      invariant rules == SaddrRules(nets[..i])
    {
      rules := rules + [Rule([Saddr(nets[i])], None, Accept)];
    }
    assert nets[..|nets|] == nets;
  }

  method RenderCustom(rs: seq<CustomRule>, chain: Chain) returns (rules: seq<Rule>)
    ensures rules == CustomRules(rs, chain)
  {
    rules := [];
    for i := 0 to |rs|
      invariant rules == CustomRules(rs[..i], chain)
    {
      assert rs[..i + 1][..i] == rs[..i];
      if OnChain(rs[i], chain) {
        rules := rules + [CustomRuleOf(rs[i], i)];
      }
    }
    assert rs[..|rs|] == rs;
  }

  method RenderInput(p: Plan) returns (rules: seq<Rule>)
    ensures rules == InputRules(p)
  {
    rules := [Rule([CtEstablishedOrRelated], None, Accept), Rule([Iif(Lo)], None, Accept),
              Rule([Saddr(Loopback())], None, Accept), Rule([Iif(Tailscale0)], None, Accept)];
    var locals := RenderNets(p.nets);
    var box := [];
    for i := 0 to |p.boxIps|
      invariant box == BoxRules(p.boxIps[..i])
    {
      assert p.boxIps[..i + 1][..i] == p.boxIps[..i];
      if p.boxIps[i].Host? {
        box := box + [Rule([Saddr(HostNet(p.boxIps[i].ip))], None, Accept)];
      }
    }
    assert p.boxIps[..|p.boxIps|] == p.boxIps;
    rules := rules + locals + box + GeoRules(p) + [DENY_RULE, ALLOW_RULE];
    var services := [];
    for i := 0 to |p.cfg.services|
      invariant services == ServiceRules(p.cfg.services[..i])
    {
      services := services + [ServiceRule(p.cfg.services[i])];
    }
    assert p.cfg.services[..|p.cfg.services|] == p.cfg.services;
    var custom := RenderCustom(p.cfg.rules, Input);
    rules := rules + services + custom + [BAN_RULE, TAILSCALE_RULE] + InputEdge(p) + SynGuard(p);
  }

  method RenderForward(p: Plan) returns (rules: seq<Rule>)
    ensures rules == ForwardChain(p)
  {
    var locals := RenderNets(p.nets);
    var custom := RenderCustom(p.cfg.rules, Forward);
    rules := [Rule([CtEstablishedOrRelated], None, Accept)] + locals + GeoRules(p)
             + [DENY_RULE, ALLOW_RULE] + custom;
    var edge := [];
    if p.wan {
      for i := 0 to |p.cfg.forwards|
        invariant edge == ForwardRules(p.cfg.forwards[..i])
      {
        assert p.cfg.forwards[..i + 1][..i] == p.cfg.forwards[..i];
        if Forwardable(p.cfg.forwards[i]) {
          edge := edge + [ForwardRule(p.cfg.forwards[i], i)];
        }
      }
      assert p.cfg.forwards[..|p.cfg.forwards|] == p.cfg.forwards;
      if DmzIp(p).Some? {
        edge := edge + [Rule([Iif(Ppp0), Daddr(HostNet(DmzIp(p).value)), CtNew], Some(DmzHits), Accept)];
      }
    }
    rules := rules + edge + [BAN_RULE] + ForwardDefault(p) + SynGuard(p);
  }

  method RenderPrerouting(p: Plan) returns (rules: seq<Rule>)
    ensures rules == PreroutingChain(p)
  {
    rules := [];
    if p.wan {
      for i := 0 to |p.cfg.forwards|
        invariant rules == DnatRules(p.cfg.forwards[..i])
      {
        assert p.cfg.forwards[..i + 1][..i] == p.cfg.forwards[..i];
        if Dnatable(p.cfg.forwards[i]) {
          rules := rules + [DnatRule(p.cfg.forwards[i], i)];
        }
      }
      assert p.cfg.forwards[..|p.cfg.forwards|] == p.cfg.forwards;
      if DmzIp(p).Some? {
        rules := rules + [Rule([Iif(Ppp0)] + DaddrOutside(p.nets), Some(DmzHits), Dnat(DmzIp(p).value, None))];
      }
    }
  }

  method CollectCounters(p: Plan) returns (names: set<Counter>)
    ensures names == CounterNames(p)
  {
    names := {DenyDrop, BanDrop, SynDrop, SynPass};
    if p.LanGuard() {
      names := names + {WanInDrop};
    }
    var hits: set<Counter> := {};
    if p.wan {
      names := names + {WanInDrop, WanFwdDrop};
      for i := 0 to |p.cfg.forwards|
        invariant hits == set j | 0 <= j < i && Forwardable(p.cfg.forwards[j]) :: ForwardHits(j)
      {
        if Forwardable(p.cfg.forwards[i]) {
          hits := hits + {ForwardHits(i)};
        }
      }
      if DmzIp(p).Some? {
        hits := hits + {DmzHits};
      }
    }
    var custom: set<Counter> := {};
    for i := 0 to |p.cfg.rules|
      invariant custom == set j | 0 <= j < i && p.cfg.rules[j].log :: CustomHits(j)
    {
      if p.cfg.rules[i].log {
        custom := custom + {CustomHits(i)};
      }
    }
    names := names + hits + custom;
  }

  method RenderCommands(raw: RawConfig, wan: bool, localNets: seq<Cidr>, boxIps: seq<AddrText>)
    returns (cmds: seq<Command>)
    ensures cmds == Rendered(PlanOf(raw, wan, localNets, boxIps))
  {
    var p := PlanOf(raw, wan, localNets, boxIps);
    cmds := [AddTable, FlushTable];
    if !p.cfg.enabled {
      return;
    }
    var body := [AddChain(Input), AddChain(Forward)];
    if wan {
      body := body + [AddChain(Prerouting)];
    }
    body := body + [AddSet(Bans), AddSet(Allow), AddSet(Deny), AddSet(Scan)];
    var allow, deny := ValidNets(p.cfg.allowCidrs), ValidNets(p.cfg.denyCidrs);
    if allow != [] {
      body := body + [AddElements(Allow, allow)];
    }
    if deny != [] {
      body := body + [AddElements(Deny, deny)];
    }
    var names := CollectCounters(p);
    body := body + [AddCounters(names)];
    assert body == Preamble(p);
    var input := RenderInput(p);
    var forwarded := RenderForward(p);
    var dnat := RenderPrerouting(p);
    cmds := cmds + (body + RuleCommands(Input, input) + RuleCommands(Forward, forwarded)
                    + RuleCommands(Prerouting, dnat));
  }
}
