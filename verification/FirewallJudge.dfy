/** From the stored configuration to the fate of a packet, and what a sanitized
    deny rule can still do to the administrator. */
module FirewallJudge {
  import opened Ipv4
  import opened Nft
  import opened FirewallConfig
  import opened FirewallRender
  import opened FirewallPolicy
  import opened FirewallLoad
  import opened FirewallSanitize
  import opened Options

  /** Whether the table lets a packet through a filter chain. */
  predicate Passes(t: Table, c: Chain, p: Packet, tokens: bool) {
    Accepts(t.Rules(c), p, EnvOf(t, tokens))
  }

  function EnvOf(t: Table, tokens: bool): Env {
    Env(if t.Table? then t.sets else map[], tokens)
  }

  /** Compiling, loading and judging in one statement: whatever the table held
      before, running the rendered commands succeeds and leaves a table that
      judges every packet by the policy, or accepts it when the firewall is off. */
  lemma LoadedTableJudgesByPolicy(
    raw: RawConfig, wan: bool, nets: seq<Cidr>, boxIps: seq<AddrText>, t: Table, p: Packet, tokens: bool)
    ensures var loaded := RunAll(Rendered(PlanOf(raw, wan, nets, boxIps)), t);
            && loaded.Some?
            && (Passes(loaded.value, Input, p, tokens) <==>
                (raw.cfg.enabled ==> InputPolicy(raw.cfg, wan, nets, boxIps, p, EnvOf(loaded.value, tokens))))
            && (Passes(loaded.value, Forward, p, tokens) <==>
                (raw.cfg.enabled ==> ForwardPolicy(raw.cfg, wan, nets, p, EnvOf(loaded.value, tokens))))
  {
    var q := PlanOf(raw, wan, nets, boxIps);
    RenderedLoads(q, t);
    LoadedImplements(q, t);
    var e := EnvOf(Loaded(q, t), tokens);
    InputChainMeansPolicy(raw, wan, nets, boxIps, p, e);
    ForwardChainMeansPolicy(raw, wan, nets, boxIps, p, e);
  }

  predicate Lists(ts: seq<AddrText>, a: Addr) {
    exists t <- ts :: CidrOf(t).Some? && CidrOf(t).value.Contains(a)
  }

  lemma {:induction false} ValidNetsList(ts: seq<AddrText>, a: Addr)
    ensures (exists n <- ValidNets(ts) :: n.Contains(a)) <==> Lists(ts, a)
  {
    if ts != [] {
      var l := |ts| - 1;
      ValidNetsList(ts[..l], a);
      assert forall t :: t in ts <==> t in ts[..l] || t == ts[l];
    }
  }

  /** On a table that was absent before, the deny and allow sets are the lists of
      the configuration, so the policy speaks of the configuration alone. */
  lemma FreshTableHasTheLists(raw: RawConfig, wan: bool, nets: seq<Cidr>, boxIps: seq<AddrText>, a: Addr, tokens: bool)
    requires raw.cfg.enabled
    ensures var e := EnvOf(Loaded(PlanOf(raw, wan, nets, boxIps), Absent), tokens);
            && (InSet(e, Deny, a) <==> Lists(raw.cfg.denyCidrs, a))
            && (InSet(e, Allow, a) <==> Lists(raw.cfg.allowCidrs, a))
            && !InSet(e, Bans, a)
  {
    var q := PlanOf(raw, wan, nets, boxIps);
    var t := Loaded(q, Absent);
    LoadedElements(q, Absent);
    ValidNetsList(raw.cfg.denyCidrs, a);
    ValidNetsList(raw.cfg.allowCidrs, a);
    SetsOfFreshTable(q);
    assert t.sets[Deny] == NetSet(ValidNets(raw.cfg.denyCidrs));
    assert t.sets[Allow] == NetSet(ValidNets(raw.cfg.allowCidrs));
  }

  lemma SetsOfFreshTable(q: Plan)
    requires q.cfg.enabled
    ensures var t := Loaded(q, Absent);
            t.Table? && Deny in t.sets && Allow in t.sets && Bans in t.sets && t.sets[Bans] == {}
  {
  }

  // ---- Lockout rules ---------------------------------------------------------------------

  /** The rule hits everything that comes from an address. */
  ghost predicate Covers(r: CustomRule, a: Addr) {
    forall p: Packet :: p.src == a ==> CustomMatches(r, p)
  }

  predicate NoDestination(t: AddrText) {
    t == Blank || (t.Block? && t.len == 0)
  }

  function Probe(src: Addr, dst: Addr, l4: L4, sport: int, dport: int): Packet {
    Packet(Ppp0, src, dst, l4, sport, dport, TcpFlags(true, false, false, false), New)
  }

  lemma AddressOutside(n: Cidr) returns (a: Addr)
    requires n.WellFormed() && n.len > 0
    ensures !n.Contains(a)
  {
    if n.base > 0 {
      a := 0;
    } else {
      SmallerThanAll(n.len);
      a := n.base + n.Size();
    }
  }

  lemma SmallerThanAll(len: nat)
    requires 0 < len <= 32
    ensures Pow2(32 - len) < 0x1_0000_0000
  {
    Pow2Split(32 - len, 32);
    Pow2Of32();
    assert Pow2(len) == 2 * Pow2(len - 1);
    MulMonotone(2, Pow2(len), Pow2(32 - len));
  }

  lemma ZeroBlockHoldsAll(t: AddrText, a: Addr)
    requires t.Block? && t.len == 0
    ensures CidrOf(t).Some? && CidrOf(t).value.Contains(a)
  {
    CidrOfWellFormed(t);
    Pow2Of32();
  }

  /** An address that the sanitizer means to protect. */
  predicate Protects(s: Site, probe: AddrText, a: Addr) {
    || Host(a) in [probe, s.gateway, s.router]
    || (s.clientNet.Some? && s.clientNet.value.Contains(a))
  }

  lemma SourceIsProtected(s: Site, probe: AddrText, src: AddrText, a: Addr)
    requires s.Valid() && Protects(s, probe, a) && CidrOf(src).Some? && CidrOf(src).value.Contains(a)
    ensures IsProtected(s, probe, src)
  {
    ProtectedIsHarmful(s, probe, src);
  }

  /** The sanitizer means to refuse a deny that cuts off a protected address
      altogether. A deny rule it keeps does so exactly when it names neither tcp
      nor udp and has no real destination: the port it was kept for is then not
      rendered, and a zero-length block other than 0.0.0.0/0 passes for a scope. */
  lemma KeptDenyCoversProtected(s: Site, probe: AddrText, r: CustomRule, a: Addr)
    requires KeepsRule(s, probe, r) && r.action == DenyText
    requires s.Valid() && Protects(s, probe, a) && NetFits(r.src, a)
    ensures Covers(r, a) <==> L4Of(r.proto).None? && NoDestination(r.dst)
    ensures Covers(r, a) ==> r.dstPort.Given? || !AnyAddress(r.dst)
  {
    if CidrOf(r.src).Some? {
      SourceIsProtected(s, probe, r.src, a);
    }
    assert AnyAddress(r.src) || IsProtected(s, probe, r.src);
    if L4Of(r.proto).Some? {
      assert !CustomMatches(r, Probe(a, 0, OtherL4(1), 0, 0));
    } else if NoDestination(r.dst) {
      forall p: Packet | p.src == a ensures CustomMatches(r, p) {
        if r.dst.Block? {
          ZeroBlockHoldsAll(r.dst, p.dst);
        }
      }
    } else {
      CidrOfWellFormed(r.dst);
      var outside := AddressOutside(CidrOf(r.dst).value);
      assert !CustomMatches(r, Probe(a, outside, OtherL4(1), 0, 0));
    }
  }

  /** Such a rule: deny everything to port 80 with the protocol left empty. */
  lemma PortWithoutProtocolIsUnscoped(s: Site, probe: AddrText, a: Addr)
    ensures var r := CustomRule(OnInput, DenyText, Blank, Blank, AnyProto, 0, Given(80), true);
            KeepsRule(s, probe, r) && Covers(r, a)
  {
  }

  // ---- Exposed entries after sanitizing ------------------------------------------------------

  /** A sanitized service opens one port of one protocol and no more, and a
      sanitized forward one port of one inside host. */
  lemma SanitizedEntriesAreExact(c: Config, x: Service, f: PortForward, p: Packet)
    requires x in CleanServices(c.services) && f in CleanForwards(c.forwards)
    ensures ServiceAdmits(x, p) <==>
            L4Of(x.proto) == Some(p.l4) && p.dport == x.port && NetFits(x.source, p.src)
    ensures ForwardAdmits(f, p) <==>
            L4Of(f.proto) == Some(p.l4) && p.dport == f.targetPort && f.targetIp == Host(p.dst)
            && p.iif == Ppp0 && p.ct == New
  {
    ServicesKept(c.services);
    ForwardsKept(c.forwards);
  }
}
