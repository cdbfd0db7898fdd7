/** What the compiled chains mean: the policy stated without rules, and the
    proof that first-match evaluation of the rendered chains is that policy. */
module FirewallPolicy {
  import opened Ipv4
  import opened Nft
  import opened FirewallConfig
  import opened FirewallRender
  import opened Options

  // ---- The policy ----------------------------------------------------------------

  predicate FromLocal(nets: seq<Cidr>, p: Packet) {
    exists n <- nets :: n.Contains(p.src)
  }

  predicate InputTrusted(nets: seq<Cidr>, boxIps: seq<AddrText>, p: Packet) {
    || p.ct == Established || p.ct == Related
    || p.iif == Lo || p.iif == Tailscale0
    || Loopback().Contains(p.src)
    || FromLocal(nets, p)
    || Host(p.src) in boxIps
  }

  predicate ProtoFits(proto: ProtoText, p: Packet) {
    L4Of(proto).Some? ==> p.l4 == L4Of(proto).value
  }

  /** A port constrains a packet only when it is set and the protocol has ports. */
  predicate PortFits(port: int, proto: ProtoText, actual: int) {
    port != 0 && L4Of(proto).Some? ==> actual == port
  }

  predicate NetFits(t: AddrText, a: Addr) {
    CidrOf(t).Some? ==> CidrOf(t).value.Contains(a)
  }

  predicate ServiceAdmits(s: Service, p: Packet) {
    && ProtoFits(OrDefault(s.proto, TcpText), p)
    && NetFits(s.source, p.src)
    && PortFits(s.port, OrDefault(s.proto, AnyProto), p.dport)
  }

  predicate CustomMatches(r: CustomRule, p: Packet) {
    && NetFits(r.src, p.src) && NetFits(r.dst, p.dst)
    && ProtoFits(r.proto, p)
    && PortFits(r.srcPort, r.proto, p.sport) && PortFits(r.dstPort.Read(), r.proto, p.dport)
  }

  predicate Hit(rs: seq<CustomRule>, chain: Chain, p: Packet, i: nat) {
    i < |rs| && OnChain(rs[i], chain) && CustomMatches(rs[i], p)
  }

  predicate FirstHit(rs: seq<CustomRule>, chain: Chain, p: Packet, i: nat) {
    Hit(rs, chain, p, i) && forall j: nat :: j < i ==> !Hit(rs, chain, p, j)
  }

  predicate CustomAllows(rs: seq<CustomRule>, chain: Chain, p: Packet) {
    exists i: nat :: i < |rs| && FirstHit(rs, chain, p, i) && rs[i].action == AllowText
  }

  predicate CustomDenies(rs: seq<CustomRule>, chain: Chain, p: Packet) {
    exists i: nat :: i < |rs| && FirstHit(rs, chain, p, i) && rs[i].action != AllowText
  }

  predicate ForwardAdmits(f: PortForward, p: Packet) {
    && Forwardable(f) && p.iif == Ppp0 && p.ct == New
    && p.dst == f.targetIp.ip
    && ProtoFits(OrDefault(f.proto, TcpText), p)
    && PortFits(f.targetPort, OrDefault(f.proto, TcpText), p.dport)
  }

  predicate DmzAdmits(cfg: Config, p: Packet) {
    cfg.dmz.Host? && p.iif == Ppp0 && p.ct == New && p.dst == cfg.dmz.ip
  }

  /** A new connection attempt needs a token; everything else falls through to
      the accepting chain policy. */
  predicate SynGuardAdmits(p: Packet, e: Env) {
    p.IsBareSyn() && p.ct == New ==> e.tokens
  }

  predicate ToDashboard(p: Packet) {
    p.l4 == Tcp && p.dport == DEFAULT_WEB_PORT
  }

  predicate InputEdgeAdmits(cfg: Config, wan: bool, nets: seq<Cidr>, p: Packet, e: Env) {
    if wan && p.iif == Ppp0 && p.ct == New then cfg.wanConfirmed && ToDashboard(p)
    else if !wan && !cfg.wanConfirmed && nets != [] && ToDashboard(p) && p.ct == New then false
    else if wan && p.iif == Ppp0 && cfg.wanConfirmed && ToDashboard(p) then true
    else SynGuardAdmits(p, e)
  }

  predicate InputPolicy(cfg: Config, wan: bool, nets: seq<Cidr>, boxIps: seq<AddrText>, p: Packet, e: Env) {
    || InputTrusted(nets, boxIps, p)
    || (&& !InSet(e, Deny, p.src)
        && (|| InSet(e, Allow, p.src)
            || (exists s <- cfg.services :: ServiceAdmits(s, p))
            || CustomAllows(cfg.rules, Input, p)
            || (&& !CustomDenies(cfg.rules, Input, p)
                && !InSet(e, Bans, p.src)
                && (|| (p.l4 == Udp && p.dport == TAILSCALE_PORT)
                    || InputEdgeAdmits(cfg, wan, nets, p, e)))))
  }

  predicate ForwardPolicy(cfg: Config, wan: bool, nets: seq<Cidr>, p: Packet, e: Env) {
    || p.ct == Established || p.ct == Related
    || FromLocal(nets, p)
    || (&& !InSet(e, Deny, p.src)
        && (|| InSet(e, Allow, p.src)
            || CustomAllows(cfg.rules, Forward, p)
            || (&& !CustomDenies(cfg.rules, Forward, p)
                && (|| (wan && ((exists f <- cfg.forwards :: ForwardAdmits(f, p)) || DmzAdmits(cfg, p)))
                    || (&& !InSet(e, Bans, p.src)
                        && !(wan && p.iif == Ppp0 && p.ct == New)
                        && SynGuardAdmits(p, e))))))
  }

  // ---- One segment at a time ---------------------------------------------------------

  lemma FiresConcat(a: seq<Match>, b: seq<Match>, c: Option<Counter>, act: Action, p: Packet, e: Env)
    ensures Fires(Rule(a + b, c, act), p, e) <==> Fires(Rule(a, c, act), p, e) && Fires(Rule(b, c, act), p, e)
  {
    assert forall m :: m in a + b <==> m in a || m in b;
  }

  lemma FiresOne(m: Match, c: Option<Counter>, act: Action, p: Packet, e: Env)
    ensures Fires(Rule([m], c, act), p, e) <==> Holds(m, p, e)
  {
    assert m in [m];
  }

  lemma VerdictOfTwo(a: Rule, b: Rule, p: Packet, e: Env)
    requires a.action != UpdateScan && b.action != UpdateScan
    ensures Verdict([a, b], p, e) ==
            if Fires(a, p, e) then Some(a.action) else if Fires(b, p, e) then Some(b.action) else None
  {
    assert [a, b] == [a] + [b];
    VerdictAppend([a], [b], p, e);
  }

  lemma SaddrRulesDecide(nets: seq<Cidr>, p: Packet, e: Env)
    ensures Verdict(SaddrRules(nets), p, e) == if FromLocal(nets, p) then Some(Accept) else None
  {
    var rules := SaddrRules(nets);
    VerdictOfUniform(rules, Accept, p, e);
    if FromLocal(nets, p) {
      var n :| n in nets && n.Contains(p.src);
      var i :| 0 <= i < |nets| && nets[i] == n;
      assert rules[i] in rules && Fires(rules[i], p, e);
    }
    forall i | 0 <= i < |rules| ensures Fires(rules[i], p, e) ==> FromLocal(nets, p) {
      assert Saddr(nets[i]) in rules[i].matches;
      assert Holds(Saddr(nets[i]), p, e) ==> nets[i] in nets && nets[i].Contains(p.src);
    }
  }

  lemma {:induction false} BoxRulesDecide(boxIps: seq<AddrText>, p: Packet, e: Env)
    ensures Verdict(BoxRules(boxIps), p, e) == if Host(p.src) in boxIps then Some(Accept) else None
  {
    if boxIps != [] {
      var l := |boxIps| - 1;
      var last := if boxIps[l].Host? then [Rule([Saddr(HostNet(boxIps[l].ip))], None, Accept)] else [];
      BoxRulesDecide(boxIps[..l], p, e);
      VerdictAppend(BoxRules(boxIps[..l]), last, p, e);
      assert boxIps == boxIps[..l] + [boxIps[l]];
      if boxIps[l].Host? {
        HostNetIsOne(boxIps[l].ip, p.src);
        assert Fires(last[0], p, e) <==> Holds(Saddr(HostNet(boxIps[l].ip)), p, e);
      }
    }
  }

  lemma ProtoMatchHolds(q: ProtoText, p: Packet, e: Env)
    ensures (forall m <- ProtoMatch(q) :: Holds(m, p, e)) <==> ProtoFits(q, p)
  {
    if L4Of(q).Some? {
      assert Proto(L4Of(q).value) in ProtoMatch(q);
    }
  }

  lemma PortMatchHolds(port: int, q: ProtoText, p: Packet, e: Env)
    requires ProtoFits(q, p)
    ensures (forall m <- DportMatch(port, q) :: Holds(m, p, e)) <==> PortFits(port, q, p.dport)
    ensures (forall m <- SportMatch(port, q) :: Holds(m, p, e)) <==> PortFits(port, q, p.sport)
  {
    if L4Of(q).Some? && port != 0 {
      assert Dport(L4Of(q).value, port) in DportMatch(port, q);
      assert Sport(L4Of(q).value, port) in SportMatch(port, q);
    }
  }

  lemma ServiceSourceFits(s: Service, a: Addr)
    ensures ServiceSource(s).Contains(a) <==> NetFits(s.source, a)
  {
    if CidrOf(s.source).None? {
      EverywhereContains(a);
    }
  }

  lemma ServiceRuleFires(s: Service, p: Packet, e: Env)
    ensures Fires(ServiceRule(s), p, e) <==> ServiceAdmits(s, p)
  {
    var q, q' := OrDefault(s.proto, TcpText), OrDefault(s.proto, AnyProto);
    var src := Saddr(ServiceSource(s));
    FiresConcat(ProtoMatch(q) + [src], DportMatch(s.port, q'), None, Accept, p, e);
    FiresConcat(ProtoMatch(q), [src], None, Accept, p, e);
    FiresOne(src, None, Accept, p, e);
    ServiceSourceFits(s, p.src);
    ProtoMatchHolds(q, p, e);
    if ProtoFits(q, p) {
      PortMatchHolds(s.port, q', p, e);
    }
  }

  lemma ServiceRulesDecide(ss: seq<Service>, p: Packet, e: Env)
    ensures Verdict(ServiceRules(ss), p, e) == if exists s <- ss :: ServiceAdmits(s, p) then Some(Accept) else None
  {
    var rules := ServiceRules(ss);
    VerdictOfUniform(rules, Accept, p, e);
    forall i | 0 <= i < |ss| ensures Fires(rules[i], p, e) <==> ServiceAdmits(ss[i], p) {
      ServiceRuleFires(ss[i], p, e);
    }
    if s :| s in ss && ServiceAdmits(s, p) {
      var i :| 0 <= i < |ss| && ss[i] == s;
      assert rules[i] in rules;
    }
    assert forall i :: 0 <= i < |rules| ==> ss[i] in ss;
  }

  lemma CustomRuleFires(r: CustomRule, i: nat, p: Packet, e: Env)
    ensures Fires(CustomRuleOf(r, i), p, e) <==> CustomMatches(r, p)
  {
    var c, act := CustomRuleOf(r, i).counter, CustomRuleOf(r, i).action;
    var src := if CidrOf(r.src).Some? then [Saddr(CidrOf(r.src).value)] else [];
    var dst := if CidrOf(r.dst).Some? then [Daddr(CidrOf(r.dst).value)] else [];
    var q, sp, dp := ProtoMatch(r.proto), SportMatch(r.srcPort, r.proto), DportMatch(r.dstPort.Read(), r.proto);
    FiresConcat(src + dst + q + sp, dp, c, act, p, e);
    FiresConcat(src + dst + q, sp, c, act, p, e);
    FiresConcat(src + dst, q, c, act, p, e);
    FiresConcat(src, dst, c, act, p, e);
    if CidrOf(r.src).Some? {
      FiresOne(src[0], c, act, p, e);
    }
    if CidrOf(r.dst).Some? {
      FiresOne(dst[0], c, act, p, e);
    }
    ProtoMatchHolds(r.proto, p, e);
    if ProtoFits(r.proto, p) {
      PortMatchHolds(r.srcPort, r.proto, p, e);
      PortMatchHolds(r.dstPort.Read(), r.proto, p, e);
    }
  }

  lemma HitPrefix(rs: seq<CustomRule>, l: nat, chain: Chain, p: Packet, i: nat)
    requires i < l <= |rs|
    ensures FirstHit(rs[..l], chain, p, i) <==> FirstHit(rs, chain, p, i)
  {
    forall j: nat | j <= i ensures Hit(rs[..l], chain, p, j) <==> Hit(rs, chain, p, j) {
    }
  }

  lemma {:induction false} CustomRulesDecide(rs: seq<CustomRule>, chain: Chain, p: Packet, e: Env)
    ensures Verdict(CustomRules(rs, chain), p, e) ==
            if CustomAllows(rs, chain, p) then Some(Accept)
            else if CustomDenies(rs, chain, p) then Some(Drop) else None
  {
    if rs != [] {
      var l := |rs| - 1;
      var last := if OnChain(rs[l], chain) then [CustomRuleOf(rs[l], l)] else [];
      CustomRulesDecide(rs[..l], chain, p, e);
      VerdictAppend(CustomRules(rs[..l], chain), last, p, e);
      CustomRuleFires(rs[l], l, p, e);
      forall i: nat | i < l ensures FirstHit(rs[..l], chain, p, i) <==> FirstHit(rs, chain, p, i) {
        HitPrefix(rs, l, chain, p, i);
      }
      HitsSplit(rs, chain, p);
    }
  }

  /** Whether the first hit is among the earlier rules or is the last one. */
  lemma HitsSplit(rs: seq<CustomRule>, chain: Chain, p: Packet)
    requires rs != []
    ensures var l := |rs| - 1;
            var earlier := CustomAllows(rs[..l], chain, p) || CustomDenies(rs[..l], chain, p);
            && (CustomAllows(rs, chain, p) <==>
                CustomAllows(rs[..l], chain, p)
                || (!earlier && Hit(rs, chain, p, l) && rs[l].action == AllowText))
            && (CustomDenies(rs, chain, p) <==>
                CustomDenies(rs[..l], chain, p)
                || (!earlier && Hit(rs, chain, p, l) && rs[l].action != AllowText))
            && !(CustomAllows(rs, chain, p) && CustomDenies(rs, chain, p))
  {
    var l := |rs| - 1;
    forall i: nat | i < l ensures FirstHit(rs[..l], chain, p, i) <==> FirstHit(rs, chain, p, i) {
      HitPrefix(rs, l, chain, p, i);
    }
    var earlier := CustomAllows(rs[..l], chain, p) || CustomDenies(rs[..l], chain, p);
    SomeFirstHit(rs[..l], chain, p);
    assert !earlier ==> forall j: nat :: j < l ==> !Hit(rs[..l], chain, p, j);
    assert forall j: nat :: j < l ==> (Hit(rs[..l], chain, p, j) <==> Hit(rs, chain, p, j));
    assert FirstHit(rs, chain, p, l) <==> !earlier && Hit(rs, chain, p, l);
    assert forall i, j: nat :: FirstHit(rs, chain, p, i) && FirstHit(rs, chain, p, j) ==> i == j;
  }

  lemma {:induction false} SomeFirstHit(rs: seq<CustomRule>, chain: Chain, p: Packet)
    ensures (exists j: nat :: j < |rs| && Hit(rs, chain, p, j)) <==>
            CustomAllows(rs, chain, p) || CustomDenies(rs, chain, p)
  {
    if j: nat :| j < |rs| && Hit(rs, chain, p, j) {
      var i: nat := 0;
      while !Hit(rs, chain, p, i)
        invariant i <= j
        invariant forall k: nat :: k < i ==> !Hit(rs, chain, p, k)
        decreases j - i
      {
        i := i + 1;
      }
      assert FirstHit(rs, chain, p, i);
    }
  }

  lemma ForwardRuleFires(f: PortForward, i: nat, p: Packet, e: Env)
    requires Forwardable(f)
    ensures Fires(ForwardRule(f, i), p, e) <==> ForwardAdmits(f, p)
  {
    var q := OrDefault(f.proto, TcpText);
    var ms := ForwardRule(f, i).matches;
    var d := Daddr(HostNet(f.targetIp.ip));
    assert forall m :: m in ms <==>
      m == Iif(Ppp0) || m in ProtoMatch(q) || m == d || m in DportMatch(f.targetPort, q) || m == CtNew;
    HostNetIsOne(f.targetIp.ip, p.dst);
    ProtoMatchHolds(q, p, e);
    if ProtoFits(q, p) {
      PortMatchHolds(f.targetPort, q, p, e);
    }
    assert d in ms && Iif(Ppp0) in ms && CtNew in ms;
  }

  lemma {:induction false} ForwardRulesDecide(fs: seq<PortForward>, p: Packet, e: Env)
    ensures Verdict(ForwardRules(fs), p, e) == if exists f <- fs :: ForwardAdmits(f, p) then Some(Accept) else None
  {
    if fs != [] {
      var l := |fs| - 1;
      var last := if Forwardable(fs[l]) then [ForwardRule(fs[l], l)] else [];
      ForwardRulesDecide(fs[..l], p, e);
      VerdictAppend(ForwardRules(fs[..l]), last, p, e);
      assert forall f :: f in fs <==> f in fs[..l] || f == fs[l];
      if Forwardable(fs[l]) {
        ForwardRuleFires(fs[l], l, p, e);
      }
    }
  }

  lemma GeoIsInert(raw: RawConfig, wan: bool, localNets: seq<Cidr>, boxIps: seq<AddrText>)
    ensures var p := PlanOf(raw, wan, localNets, boxIps);
            GeoRules(p) == [] && p.webPort == DEFAULT_WEB_PORT && p.cfg == raw.cfg && p.wan == wan
            && p.boxIps == boxIps && (p.nets == [] <==> localNets == [])
            && forall n :: n in p.nets <==> n in localNets
  {
    if localNets != [] {
      assert localNets[0] in SortedUnique(localNets);
    }
  }

  // ---- fw_input ----------------------------------------------------------------------

  lemma TrustDecides(q: Plan, p: Packet, e: Env)
    ensures Verdict(InputTrust(q), p, e) == if InputTrusted(q.nets, q.boxIps, p) then Some(Accept) else None
  {
    var a := Rule([CtEstablishedOrRelated], None, Accept);
    var b := Rule([Iif(Lo)], None, Accept);
    var c := Rule([Saddr(Loopback())], None, Accept);
    var d := Rule([Iif(Tailscale0)], None, Accept);
    FiresOne(CtEstablishedOrRelated, None, Accept, p, e);
    FiresOne(Iif(Lo), None, Accept, p, e);
    FiresOne(Saddr(Loopback()), None, Accept, p, e);
    FiresOne(Iif(Tailscale0), None, Accept, p, e);
    var head := [a, b, c, d];
    assert head == [a, b] + [c, d];
    VerdictOfTwo(a, b, p, e);
    VerdictOfTwo(c, d, p, e);
    VerdictAppend([a, b], [c, d], p, e);
    VerdictAppend(head, SaddrRules(q.nets), p, e);
    VerdictAppend(head + SaddrRules(q.nets), BoxRules(q.boxIps), p, e);
    SaddrRulesDecide(q.nets, p, e);
    BoxRulesDecide(q.boxIps, p, e);
  }

  lemma SetRulesDecide(p: Packet, e: Env)
    ensures Verdict([DENY_RULE, ALLOW_RULE], p, e) ==
            if InSet(e, Deny, p.src) then Some(Drop) else if InSet(e, Allow, p.src) then Some(Accept) else None
    ensures Verdict([BAN_RULE], p, e) == if InSet(e, Bans, p.src) then Some(Drop) else None
    ensures Verdict([BAN_RULE, TAILSCALE_RULE], p, e) ==
            if InSet(e, Bans, p.src) then Some(Drop)
            else if p.l4 == Udp && p.dport == TAILSCALE_PORT then Some(Accept) else None
  {
    assert Fires(DENY_RULE, p, e) <==> Holds(SaddrIn(Deny), p, e);
    assert Fires(ALLOW_RULE, p, e) <==> Holds(SaddrIn(Allow), p, e);
    assert Fires(BAN_RULE, p, e) <==> Holds(SaddrIn(Bans), p, e);
    assert Fires(TAILSCALE_RULE, p, e) <==> Holds(Dport(Udp, TAILSCALE_PORT), p, e);
    VerdictOfTwo(DENY_RULE, ALLOW_RULE, p, e);
    VerdictOfTwo(BAN_RULE, TAILSCALE_RULE, p, e);
  }

  lemma SynGuardDecides(q: Plan, p: Packet, e: Env)
    ensures Verdict(SynGuard(q), p, e) ==
            if p.IsBareSyn() && p.ct == New then (if e.tokens then Some(Accept) else Some(Drop)) else None
  {
    var scan := if q.cfg.scanEnabled then [Rule([SynSet, CtNew], None, UpdateScan)] else [];
    var pass := Rule([BareSyn, CtNew, Limit(q.Rate(), q.Burst())], Some(SynPass), Accept);
    var drop := Rule([BareSyn, CtNew], Some(SynDrop), Drop);
    VerdictAppend(scan, [pass, drop], p, e);
    assert Verdict(scan, p, e) == None;
    assert Fires(pass, p, e) <==> Holds(BareSyn, p, e) && Holds(CtNew, p, e) && Holds(Limit(q.Rate(), q.Burst()), p, e);
    assert Fires(drop, p, e) <==> Holds(BareSyn, p, e) && Holds(CtNew, p, e);
    VerdictOfTwo(pass, drop, p, e);
  }

  lemma InputEdgeDecides(q: Plan, p: Packet, e: Env)
    requires q.webPort == DEFAULT_WEB_PORT && !FromLocal(q.nets, p)
    ensures var v := Verdict(InputEdge(q) + SynGuard(q), p, e);
            (v == None || v == Some(Accept)) <==> InputEdgeAdmits(q.cfg, q.wan, q.nets, p, e)
  {
    VerdictAppend(InputEdge(q), SynGuard(q), p, e);
    SynGuardDecides(q, p, e);
    if q.wan {
      WanEdgeDecides(q, p, e);
    } else if q.LanGuard() {
      LanEdgeDecides(q, p, e);
    }
  }

  lemma WanEdgeDecides(q: Plan, p: Packet, e: Env)
    requires q.wan
    ensures Verdict(InputEdge(q), p, e) ==
            if p.iif == Ppp0 && q.cfg.wanConfirmed && p.l4 == Tcp && p.dport == q.webPort then Some(Accept)
            else if p.iif == Ppp0 && p.ct == New then Some(Drop) else None
  {
    var expose := Rule([Iif(Ppp0), Dport(Tcp, q.webPort)], None, Accept);
    var cut := Rule([Iif(Ppp0), CtNew], Some(WanInDrop), Drop);
    assert Fires(expose, p, e) <==> Holds(Iif(Ppp0), p, e) && Holds(Dport(Tcp, q.webPort), p, e);
    assert Fires(cut, p, e) <==> Holds(Iif(Ppp0), p, e) && Holds(CtNew, p, e);
    VerdictOfTwo(expose, cut, p, e);
    assert InputEdge(q) == if q.cfg.wanConfirmed then [expose, cut] else [cut];
  }

  lemma LanEdgeDecides(q: Plan, p: Packet, e: Env)
    requires !q.wan && q.LanGuard() && !FromLocal(q.nets, p)
    ensures Verdict(InputEdge(q), p, e) ==
            if p.l4 == Tcp && p.dport == q.webPort && p.ct == New then Some(Drop) else None
  {
    var head := [Dport(Tcp, q.webPort), CtNew];
    var guard := Rule(head + OutsideOf(q.nets), Some(WanInDrop), Drop);
    FiresConcat(head, OutsideOf(q.nets), Some(WanInDrop), Drop, p, e);
    assert forall m <- OutsideOf(q.nets) :: Holds(m, p, e);
    assert Dport(Tcp, q.webPort) in head && CtNew in head;
    assert InputEdge(q) == [guard];
  }

  /** First-match evaluation of the rendered fw_input chain is the input policy,
      for every configuration, topology, local networks, packet and set contents. */
  lemma InputChainMeansPolicy(
    raw: RawConfig, wan: bool, nets: seq<Cidr>, boxIps: seq<AddrText>, p: Packet, e: Env)
    ensures Accepts(InputRules(PlanOf(raw, wan, nets, boxIps)), p, e) <==>
            InputPolicy(raw.cfg, wan, nets, boxIps, p, e)
  {
    var q := PlanOf(raw, wan, nets, boxIps);
    GeoIsInert(raw, wan, nets, boxIps);
    var s3 := [BAN_RULE, TAILSCALE_RULE] + (InputEdge(q) + SynGuard(q));
    var s2 := CustomRules(q.cfg.rules, Input) + s3;
    var s1 := ServiceRules(q.cfg.services) + s2;
    var s0 := [DENY_RULE, ALLOW_RULE] + s1;
    assert InputRules(q) == InputTrust(q) + s0;
    VerdictAppend(InputTrust(q), s0, p, e);
    VerdictAppend([DENY_RULE, ALLOW_RULE], s1, p, e);
    VerdictAppend(ServiceRules(q.cfg.services), s2, p, e);
    VerdictAppend(CustomRules(q.cfg.rules, Input), s3, p, e);
    TrustDecides(q, p, e);
    SetRulesDecide(p, e);
    ServiceRulesDecide(q.cfg.services, p, e);
    CustomRulesDecide(q.cfg.rules, Input, p, e);
    HitsExclusive(q.cfg.rules, Input, p);
    if !FromLocal(q.nets, p) {
      InputTailDecides(q, p, e);
    }
    assert InputEdgeAdmits(q.cfg, wan, q.nets, p, e) == InputEdgeAdmits(raw.cfg, wan, nets, p, e);
  }

  /** From the ban rule on. */
  lemma InputTailDecides(q: Plan, p: Packet, e: Env)
    requires q.webPort == DEFAULT_WEB_PORT && !FromLocal(q.nets, p)
    ensures Accepts([BAN_RULE, TAILSCALE_RULE] + (InputEdge(q) + SynGuard(q)), p, e) <==>
            !InSet(e, Bans, p.src)
            && ((p.l4 == Udp && p.dport == TAILSCALE_PORT) || InputEdgeAdmits(q.cfg, q.wan, q.nets, p, e))
  {
    VerdictAppend([BAN_RULE, TAILSCALE_RULE], InputEdge(q) + SynGuard(q), p, e);
    SetRulesDecide(p, e);
    InputEdgeDecides(q, p, e);
  }

  lemma HitsExclusive(rs: seq<CustomRule>, chain: Chain, p: Packet)
    ensures !(CustomAllows(rs, chain, p) && CustomDenies(rs, chain, p))
  {
    if rs != [] {
      HitsSplit(rs, chain, p);
    }
  }

  // ---- fw_forward --------------------------------------------------------------------

  lemma ForwardEdgeDecides(q: Plan, p: Packet, e: Env)
    ensures Verdict(ForwardEdge(q), p, e) ==
            if q.wan && ((exists f <- q.cfg.forwards :: ForwardAdmits(f, p)) || DmzAdmits(q.cfg, p))
            then Some(Accept) else None
  {
    if q.wan {
      var ip := DmzIp(q);
      var dmz := if ip.Some?
        then [Rule([Iif(Ppp0), Daddr(HostNet(ip.value)), CtNew], Some(DmzHits), Accept)] else [];
      VerdictAppend(ForwardRules(q.cfg.forwards), dmz, p, e);
      ForwardRulesDecide(q.cfg.forwards, p, e);
      if ip.Some? {
        HostNetIsOne(ip.value, p.dst);
        assert Fires(dmz[0], p, e) <==>
          Holds(Iif(Ppp0), p, e) && Holds(Daddr(HostNet(ip.value)), p, e) && Holds(CtNew, p, e);
      }
    }
  }

  lemma ForwardDefaultDecides(q: Plan, p: Packet, e: Env)
    ensures var v := Verdict(ForwardDefault(q) + SynGuard(q), p, e);
            (v == None || v == Some(Accept)) <==>
            !(q.wan && p.iif == Ppp0 && p.ct == New) && SynGuardAdmits(p, e)
  {
    VerdictAppend(ForwardDefault(q), SynGuard(q), p, e);
    SynGuardDecides(q, p, e);
    var cut := Rule([Iif(Ppp0), CtNew], Some(WanFwdDrop), Drop);
    assert Fires(cut, p, e) <==> Holds(Iif(Ppp0), p, e) && Holds(CtNew, p, e);
    assert q.wan ==> ForwardDefault(q) == [cut];
  }

  /** First-match evaluation of the rendered fw_forward chain is the forward
      policy, on the same inputs. */
  lemma ForwardChainMeansPolicy(
    raw: RawConfig, wan: bool, nets: seq<Cidr>, boxIps: seq<AddrText>, p: Packet, e: Env)
    ensures Accepts(ForwardChain(PlanOf(raw, wan, nets, boxIps)), p, e) <==>
            ForwardPolicy(raw.cfg, wan, nets, p, e)
  {
    var q := PlanOf(raw, wan, nets, boxIps);
    GeoIsInert(raw, wan, nets, boxIps);
    var est := [Rule([CtEstablishedOrRelated], None, Accept)];
    var tail := ForwardDefault(q) + SynGuard(q);
    var s4 := [BAN_RULE] + tail;
    var s3 := ForwardEdge(q) + s4;
    var s2 := CustomRules(q.cfg.rules, Forward) + s3;
    var s1 := [DENY_RULE, ALLOW_RULE] + s2;
    var s0 := SaddrRules(q.nets) + s1;
    assert ForwardChain(q) == est + s0;
    VerdictAppend(est, s0, p, e);
    VerdictAppend(SaddrRules(q.nets), s1, p, e);
    VerdictAppend([DENY_RULE, ALLOW_RULE], s2, p, e);
    VerdictAppend(CustomRules(q.cfg.rules, Forward), s3, p, e);
    VerdictAppend(ForwardEdge(q), s4, p, e);
    VerdictAppend([BAN_RULE], tail, p, e);
    assert Fires(est[0], p, e) <==> Holds(CtEstablishedOrRelated, p, e);
    SaddrRulesDecide(q.nets, p, e);
    SetRulesDecide(p, e);
    CustomRulesDecide(q.cfg.rules, Forward, p, e);
    HitsExclusive(q.cfg.rules, Forward, p);
    ForwardEdgeDecides(q, p, e);
    ForwardDefaultDecides(q, p, e);
  }

  // ---- What the policy promises --------------------------------------------------------

  /** Home networks are never cut, whatever the deny list, the bans and the
      custom rules say. */
  lemma LocalSourcesAlwaysAccepted(
    raw: RawConfig, wan: bool, nets: seq<Cidr>, boxIps: seq<AddrText>, p: Packet, e: Env)
    requires FromLocal(nets, p)
    ensures Accepts(InputRules(PlanOf(raw, wan, nets, boxIps)), p, e)
    ensures Accepts(ForwardChain(PlanOf(raw, wan, nets, boxIps)), p, e)
  {
    InputChainMeansPolicy(raw, wan, nets, boxIps, p, e);
    ForwardChainMeansPolicy(raw, wan, nets, boxIps, p, e);
  }

  /** WAN mode: a new connection from the internet is refused by default. */
  lemma NewFromInternet(raw: RawConfig, nets: seq<Cidr>, boxIps: seq<AddrText>, p: Packet, e: Env)
    requires p.iif == Ppp0 && p.ct == New && !InputTrusted(nets, boxIps, p)
    ensures Accepts(InputRules(PlanOf(raw, true, nets, boxIps)), p, e) <==>
            && !InSet(e, Deny, p.src)
            && (|| InSet(e, Allow, p.src)
                || (exists s <- raw.cfg.services :: ServiceAdmits(s, p))
                || CustomAllows(raw.cfg.rules, Input, p)
                || (&& !CustomDenies(raw.cfg.rules, Input, p) && !InSet(e, Bans, p.src)
                    && (|| (p.l4 == Udp && p.dport == TAILSCALE_PORT)
                        || (raw.cfg.wanConfirmed && ToDashboard(p)))))
    ensures Accepts(ForwardChain(PlanOf(raw, true, nets, boxIps)), p, e) <==>
            && !InSet(e, Deny, p.src)
            && (|| InSet(e, Allow, p.src)
                || CustomAllows(raw.cfg.rules, Forward, p)
                || (&& !CustomDenies(raw.cfg.rules, Forward, p)
                    && ((exists f <- raw.cfg.forwards :: ForwardAdmits(f, p)) || DmzAdmits(raw.cfg, p))))
  {
    InputChainMeansPolicy(raw, true, nets, boxIps, p, e);
    ForwardChainMeansPolicy(raw, true, nets, boxIps, p, e);
  }

  // ---- nat and filter agree --------------------------------------------------------------

  predicate RewrittenBy(f: PortForward, p: Packet, a: Action) {
    && Dnatable(f) && p.iif == Ppp0
    && ProtoFits(OrDefault(f.proto, TcpText), p)
    && PortFits(f.sourcePort, OrDefault(f.proto, TcpText), p.dport)
    && a == Dnat(f.targetIp.ip, Some(f.targetPort))
  }

  lemma DnatRuleFires(f: PortForward, i: nat, p: Packet, e: Env)
    requires Dnatable(f)
    ensures Fires(DnatRule(f, i), p, e) <==> RewrittenBy(f, p, DnatRule(f, i).action)
  {
    var r, q := DnatRule(f, i), OrDefault(f.proto, TcpText);
    FiresConcat([Iif(Ppp0)] + ProtoMatch(q), DportMatch(f.sourcePort, q), r.counter, r.action, p, e);
    FiresConcat([Iif(Ppp0)], ProtoMatch(q), r.counter, r.action, p, e);
    FiresOne(Iif(Ppp0), r.counter, r.action, p, e);
    ProtoMatchHolds(q, p, e);
    if ProtoFits(q, p) {
      PortMatchHolds(f.sourcePort, q, p, e);
    }
  }

  lemma {:induction false} DnatRulesDecide(fs: seq<PortForward>, p: Packet, e: Env)
    ensures var v := Verdict(DnatRules(fs), p, e);
            v == None || (v.value.Dnat? && exists f <- fs :: RewrittenBy(f, p, v.value))
  {
    if fs != [] {
      var l := |fs| - 1;
      var last := if Dnatable(fs[l]) then [DnatRule(fs[l], l)] else [];
      DnatRulesDecide(fs[..l], p, e);
      VerdictAppend(DnatRules(fs[..l]), last, p, e);
      assert forall f :: f in fs <==> f in fs[..l] || f == fs[l];
      if Dnatable(fs[l]) {
        DnatRuleFires(fs[l], l, p, e);
      }
    }
  }

  /** The filter chain has an accept clause for whatever the nat chain rewrites:
      a redirected packet is refused only by the deny list or a custom deny. */
  lemma RewrittenIsForwarded(raw: RawConfig, nets: seq<Cidr>, boxIps: seq<AddrText>, p: Packet, e: Env)
    requires p.iif == Ppp0 && p.ct == New && !FromLocal(nets, p)
    requires Verdict(PreroutingChain(PlanOf(raw, true, nets, boxIps)), p, e) != None
    ensures var p' := Rewrite(PreroutingChain(PlanOf(raw, true, nets, boxIps)), p, e);
            Accepts(ForwardChain(PlanOf(raw, true, nets, boxIps)), p', e) <==>
            !InSet(e, Deny, p.src) && (InSet(e, Allow, p.src) || !CustomDenies(raw.cfg.rules, Forward, p'))
  {
    var q := PlanOf(raw, true, nets, boxIps);
    GeoIsInert(raw, true, nets, boxIps);
    var ip := DmzIp(q);
    var dmz := if ip.Some?
      then [Rule([Iif(Ppp0)] + DaddrOutside(q.nets), Some(DmzHits), Dnat(ip.value, None))] else [];
    VerdictAppend(DnatRules(q.cfg.forwards), dmz, p, e);
    DnatRulesDecide(q.cfg.forwards, p, e);
    var p' := Rewrite(PreroutingChain(q), p, e);
    ForwardChainMeansPolicy(raw, true, nets, boxIps, p', e);
    HitsExclusive(raw.cfg.rules, Forward, p');
    var v := Verdict(DnatRules(q.cfg.forwards), p, e);
    if v != None {
      var f :| f in q.cfg.forwards && RewrittenBy(f, p, v.value);
      assert ForwardAdmits(f, p');
    } else {
      assert DmzAdmits(raw.cfg, p');
    }
  }
}
