/** FirewallManager.sanitize: entries that would lock the administrator out are
    dropped, and unreadable ones with them. */
module FirewallSanitize {
  import opened Ipv4
  import opened Nft
  import opened FirewallConfig
  import opened Options

  const DEFAULT_WATCHDOG_SEC := 45

  /** What the manager knows about its own place in the network. */
  datatype Site = Site(
    wan: bool, localNets: seq<Cidr>, boxIps: seq<AddrText>,
    clientNet: Option<Cidr>, gateway: AddrText, router: AddrText)
  {
    /** The client network came through ip_network, like every network text. */
    predicate Valid() {
      clientNet.Some? ==> clientNet.value.WellFormed()
    }

    // probe_ip
    function Probe(c: Config): AddrText {
      if c.probeIp.Host? then c.probeIp
      else if gateway != Blank then gateway else router
    }
  }

  /** The two subnet_of tests and the three containment tests of is_protected. */
  predicate IsProtected(s: Site, probe: AddrText, t: AddrText) {
    CidrOf(t).Some? &&
    var n := CidrOf(t).value;
    || (s.clientNet.Some? && (n.SubnetOf(s.clientNet.value) || s.clientNet.value.SubnetOf(n)))
    || exists q <- [probe, s.gateway, s.router] :: q.Host? && n.Contains(q.ip)
  }

  predicate InPortRange(v: int) { 1 <= v <= 65535 }

  predicate AnyAddress(t: AddrText) { t == Blank || t == Block(0, 0) }

  /** A deny with neither a destination nor a port that hits the administrator. */
  predicate LocksOut(s: Site, probe: AddrText, r: CustomRule) {
    && r.action == DenyText
    && (AnyAddress(r.src) || IsProtected(s, probe, r.src))
    && AnyAddress(r.dst)
    && r.dstPort.Unset?
  }

  predicate KeepsRule(s: Site, probe: AddrText, r: CustomRule) {
    && r.chain != OnOther && r.action != OtherAction && r.proto != OtherProto
    && (r.src == Blank || CidrOf(r.src).Some?)
    && (r.dst == Blank || CidrOf(r.dst).Some?)
    && !LocksOut(s, probe, r)
    && (r.srcPort == 0 || InPortRange(r.srcPort))
    && (r.dstPort.Read() == 0 || InPortRange(r.dstPort.Read()))
  }

  function CleanRule(r: CustomRule): CustomRule {
    r.(proto := OrDefault(r.proto, AnyProto), dstPort := PortOf(r.dstPort.Read()))
  }

  predicate KeepsService(x: Service) {
    InPortRange(x.port) && L4Of(OrDefault(x.proto, TcpText)).Some?
  }

  predicate KeepsForward(f: PortForward) {
    && f.targetIp.Host? && InPortRange(f.sourcePort) && InPortRange(f.targetPort)
    && L4Of(OrDefault(f.proto, TcpText)).Some?
  }

  // ---- The lists the loops build -----------------------------------------------------

  function CleanDeny(s: Site, probe: AddrText, ts: seq<AddrText>): seq<AddrText> {
    if ts == [] then []
    else
      var l := |ts| - 1;
      CleanDeny(s, probe, ts[..l]) + if IsProtected(s, probe, ts[l]) then [] else [ts[l]]
  }

  function CleanAllow(ts: seq<AddrText>): seq<AddrText> {
    if ts == [] then []
    else
      var l := |ts| - 1;
      CleanAllow(ts[..l])
      + if CidrOf(ts[l]).Some? then [Block(CidrOf(ts[l]).value.base, CidrOf(ts[l]).value.len)] else []
  }

  function CleanRules(s: Site, probe: AddrText, rs: seq<CustomRule>): seq<CustomRule> {
    if rs == [] then []
    else
      var l := |rs| - 1;
      CleanRules(s, probe, rs[..l]) + if KeepsRule(s, probe, rs[l]) then [CleanRule(rs[l])] else []
  }

  function CleanServices(xs: seq<Service>): seq<Service> {
    if xs == [] then []
    else
      var l := |xs| - 1;
      CleanServices(xs[..l])
      + if KeepsService(xs[l]) then [xs[l].(proto := OrDefault(xs[l].proto, TcpText))] else []
  }

  function CleanForwards(fs: seq<PortForward>): seq<PortForward> {
    if fs == [] then []
    else
      var l := |fs| - 1;
      CleanForwards(fs[..l])
      + if KeepsForward(fs[l]) then [fs[l].(proto := OrDefault(fs[l].proto, TcpText))] else []
  }

  function AtLeastOne(v: int): int { if v < 1 then 1 else v }

  function Sanitized(s: Site, probe: AddrText, c: Config): Config {
    c.(denyCidrs := CleanDeny(s, probe, c.denyCidrs),
       allowCidrs := CleanAllow(c.allowCidrs),
       rules := CleanRules(s, probe, c.rules),
       services := CleanServices(c.services),
       forwards := CleanForwards(c.forwards),
       dmz := if c.dmz.Host? then c.dmz else Blank,
       watchdogSeconds := AtLeastOne(if c.watchdogSeconds == 0 then DEFAULT_WATCHDOG_SEC else c.watchdogSeconds))
  }

  method Sanitize(s: Site, probe: AddrText, c: Config) returns (clean: Config, warnings: nat)
    ensures clean == Sanitized(s, probe, c)
    ensures warnings == (|c.denyCidrs| - |clean.denyCidrs|) + (|c.rules| - |clean.rules|)
  {
    warnings := 0;
    var deny := [];
    for i := 0 to |c.denyCidrs|
      invariant deny == CleanDeny(s, probe, c.denyCidrs[..i])
      invariant warnings == i - |deny|
    {
      assert c.denyCidrs[..i + 1][..i] == c.denyCidrs[..i];
      if IsProtected(s, probe, c.denyCidrs[i]) {
        warnings := warnings + 1;
      } else {
        deny := deny + [c.denyCidrs[i]];
      }
    }
    assert c.denyCidrs[..|c.denyCidrs|] == c.denyCidrs;
    var rules := [];
    for i := 0 to |c.rules|
      invariant rules == CleanRules(s, probe, c.rules[..i])
      invariant warnings == (|c.denyCidrs| - |deny|) + (i - |rules|)
    {
      assert c.rules[..i + 1][..i] == c.rules[..i];
      if KeepsRule(s, probe, c.rules[i]) {
        rules := rules + [CleanRule(c.rules[i])];
      } else {
        warnings := warnings + 1;
      }
    }
    assert c.rules[..|c.rules|] == c.rules;
    var services, forwards := SanitizeExposed(c);
    var seconds := if c.watchdogSeconds == 0 then DEFAULT_WATCHDOG_SEC else c.watchdogSeconds;
    if seconds < 1 {
      seconds := 1;
    }
    clean := c.(denyCidrs := deny, allowCidrs := CleanAllow(c.allowCidrs), rules := rules,
                services := services, forwards := forwards,
                dmz := if c.dmz.Host? then c.dmz else Blank, watchdogSeconds := seconds);
  }

  method SanitizeExposed(c: Config) returns (services: seq<Service>, forwards: seq<PortForward>)
    ensures services == CleanServices(c.services) && forwards == CleanForwards(c.forwards)
  {
    services, forwards := [], [];
    for i := 0 to |c.services|
      invariant services == CleanServices(c.services[..i])
    {
      assert c.services[..i + 1][..i] == c.services[..i];
      if KeepsService(c.services[i]) {
        services := services + [c.services[i].(proto := OrDefault(c.services[i].proto, TcpText))];
      }
    }
    assert c.services[..|c.services|] == c.services;
    for i := 0 to |c.forwards|
      invariant forwards == CleanForwards(c.forwards[..i])
    {
      assert c.forwards[..i + 1][..i] == c.forwards[..i];
      if KeepsForward(c.forwards[i]) {
        forwards := forwards + [c.forwards[i].(proto := OrDefault(c.forwards[i].proto, TcpText))];
      }
    }
    assert c.forwards[..|c.forwards|] == c.forwards;
  }

  // ---- What a sanitized configuration cannot do -------------------------------------------

  predicate Harmless(s: Site, probe: AddrText, t: AddrText) {
    CidrOf(t).Some? ==>
      && (s.clientNet.Some? ==>
            !exists a: Addr :: CidrOf(t).value.Contains(a) && s.clientNet.value.Contains(a))
      && forall q <- [probe, s.gateway, s.router] :: q.Host? ==> !CidrOf(t).value.Contains(q.ip)
  }

  lemma ProtectedIsHarmful(s: Site, probe: AddrText, t: AddrText)
    requires s.Valid()
    ensures IsProtected(s, probe, t) <==> !Harmless(s, probe, t)
  {
    if CidrOf(t).Some? && s.clientNet.Some? {
      CidrOfWellFormed(t);
      NestedOrDisjoint(CidrOf(t).value, s.clientNet.value);
    }
  }

  /** The deny list that is kept is exactly the part that shares no address with
      the client network and contains no protected address. */
  lemma {:induction false} DenyKeepsTheHarmless(s: Site, probe: AddrText, ts: seq<AddrText>)
    requires s.Valid()
    ensures forall t :: t in CleanDeny(s, probe, ts) <==> t in ts && Harmless(s, probe, t)
  {
    if ts != [] {
      var l := |ts| - 1;
      DenyKeepsTheHarmless(s, probe, ts[..l]);
      ProtectedIsHarmful(s, probe, ts[l]);
      assert ts == ts[..l] + [ts[l]];
    }
  }

  /** The rules that are kept are the normal forms of those that pass. */
  lemma {:induction false} RulesKept(s: Site, probe: AddrText, rs: seq<CustomRule>)
    ensures forall y :: y in CleanRules(s, probe, rs) <==> exists r <- rs :: KeepsRule(s, probe, r) && y == CleanRule(r)
    ensures forall y <- CleanRules(s, probe, rs) :: CleanRule(y) == y
    ensures |CleanRules(s, probe, rs)| <= |rs|
  {
    if rs != [] {
      var l := |rs| - 1;
      RulesKept(s, probe, rs[..l]);
      assert forall r :: r in rs <==> r in rs[..l] || r == rs[l];
    }
  }

  /** The lockout test asks whether the port is set before the port is read. A deny
      rule that hits the administrator passes it with a port like "any", and is kept
      without one. */
  predicate BlindPort(s: Site, probe: AddrText, r: CustomRule) {
    r.dstPort == Given(0) && LocksOut(s, probe, r.(dstPort := Unset))
  }

  predicate HasBlindPort(s: Site, probe: AddrText, rs: seq<CustomRule>) {
    exists r <- rs :: KeepsRule(s, probe, r) && BlindPort(s, probe, r)
  }

  lemma KeptRuleLocksOut(s: Site, probe: AddrText, r: CustomRule)
    requires KeepsRule(s, probe, r)
    ensures LocksOut(s, probe, CleanRule(r)) <==> BlindPort(s, probe, r)
    ensures KeepsRule(s, probe, CleanRule(r)) <==> !BlindPort(s, probe, r)
  {
  }

  /** A sanitized rule list locks nobody out if and only if no rule that is kept has
      a blind port. */
  lemma RulesKeepNoLockout(s: Site, probe: AddrText, rs: seq<CustomRule>)
    ensures (forall y <- CleanRules(s, probe, rs) :: !LocksOut(s, probe, y)) <==> !HasBlindPort(s, probe, rs)
    ensures (forall y <- CleanRules(s, probe, rs) :: KeepsRule(s, probe, y)) <==> !HasBlindPort(s, probe, rs)
  {
    RulesKept(s, probe, rs);
    forall r | r in rs && KeepsRule(s, probe, r)
      ensures CleanRule(r) in CleanRules(s, probe, rs)
      ensures LocksOut(s, probe, CleanRule(r)) <==> BlindPort(s, probe, r)
      ensures KeepsRule(s, probe, CleanRule(r)) <==> !BlindPort(s, probe, r)
    {
      KeptRuleLocksOut(s, probe, r);
    }
  }

  /** Such a rule: deny everything, to a port given as "any". */
  lemma BlindPortIsKept(s: Site, probe: AddrText)
    ensures var r := CustomRule(OnInput, DenyText, Blank, Blank, AnyProto, 0, Given(0), true);
            && CleanRules(s, probe, [r]) == [r.(dstPort := Unset)]
            && LocksOut(s, probe, r.(dstPort := Unset))
            && CleanRules(s, probe, CleanRules(s, probe, [r])) == []
  {
    var r := CustomRule(OnInput, DenyText, Blank, Blank, AnyProto, 0, Given(0), true);
    CleanRulesOfOne(s, probe, r);
    CleanRulesOfOne(s, probe, r.(dstPort := Unset));
  }

  lemma CleanRulesOfOne(s: Site, probe: AddrText, r: CustomRule)
    ensures CleanRules(s, probe, [r]) == if KeepsRule(s, probe, r) then [CleanRule(r)] else []
  {
    assert [r][..0] == [];
    assert CleanRules(s, probe, []) == [];
  }

  /** Exposed services and forwards: nothing that passes the test is lost, and
      nothing else gets in. */
  lemma {:induction false} ServicesKept(xs: seq<Service>)
    ensures forall y <- CleanServices(xs) :: KeepsService(y) && !y.proto.Missing?
    ensures forall x <- xs :: KeepsService(x) ==> x.(proto := OrDefault(x.proto, TcpText)) in CleanServices(xs)
  {
    if xs != [] {
      var l := |xs| - 1;
      ServicesKept(xs[..l]);
      assert xs == xs[..l] + [xs[l]];
    }
  }

  lemma {:induction false} ForwardsKept(fs: seq<PortForward>)
    ensures forall y <- CleanForwards(fs) :: KeepsForward(y) && !y.proto.Missing?
    ensures forall x <- fs :: KeepsForward(x) ==> x.(proto := OrDefault(x.proto, TcpText)) in CleanForwards(fs)
  {
    if fs != [] {
      var l := |fs| - 1;
      ForwardsKept(fs[..l]);
      assert fs == fs[..l] + [fs[l]];
    }
  }

  // ---- Sanitizing twice changes nothing -----------------------------------------------------

  lemma {:induction false} CleanDenyUnprotected(s: Site, probe: AddrText, ts: seq<AddrText>)
    ensures forall t <- CleanDeny(s, probe, ts) :: !IsProtected(s, probe, t)
  {
    if ts != [] {
      CleanDenyUnprotected(s, probe, ts[..|ts| - 1]);
    }
  }

  lemma {:induction false} CleanDenyAgain(s: Site, probe: AddrText, ts: seq<AddrText>)
    requires forall t <- ts :: !IsProtected(s, probe, t)
    ensures CleanDeny(s, probe, ts) == ts
  {
    if ts != [] {
      var l := |ts| - 1;
      CleanDenyAgain(s, probe, ts[..l]);
      assert ts == ts[..l] + [ts[l]];
    }
  }

  lemma NormalizedAgain(n: Cidr)
    requires n.WellFormed()
    ensures 0 <= n.base < 0x1_0000_0000 && CidrOf(Block(n.base, n.len)) == Some(n)
  {
    NetOfBase(n);
  }

  lemma {:induction false} CleanAllowAgain(ts: seq<AddrText>)
    requires forall t <- ts :: CidrOf(t).Some? && t == Block(CidrOf(t).value.base, CidrOf(t).value.len)
    ensures CleanAllow(ts) == ts
  {
    if ts != [] {
      var l := |ts| - 1;
      CleanAllowAgain(ts[..l]);
      assert ts == ts[..l] + [ts[l]];
      assert ts[l] in ts;
    }
  }

  lemma {:induction false} CleanAllowIsNormal(ts: seq<AddrText>)
    ensures forall t <- CleanAllow(ts) :: CidrOf(t).Some? && t == Block(CidrOf(t).value.base, CidrOf(t).value.len)
  {
    if ts != [] {
      var l := |ts| - 1;
      CleanAllowIsNormal(ts[..l]);
      if CidrOf(ts[l]).Some? {
        CidrOfWellFormed(ts[l]);
        NormalizedAgain(CidrOf(ts[l]).value);
      }
    }
  }

  lemma {:induction false} CleanRulesAgain(s: Site, probe: AddrText, rs: seq<CustomRule>)
    requires forall r <- rs :: CleanRule(r) == r
    ensures CleanRules(s, probe, rs) == rs <==> forall r <- rs :: KeepsRule(s, probe, r)
    ensures |CleanRules(s, probe, rs)| <= |rs|
  {
    if rs != [] {
      var l := |rs| - 1;
      CleanRulesAgain(s, probe, rs[..l]);
      assert rs == rs[..l] + [rs[l]];
      assert rs[l] in rs;
      if KeepsRule(s, probe, rs[l]) && CleanRules(s, probe, rs) == rs {
        assert CleanRules(s, probe, rs)[..l] == rs[..l];
      }
    }
  }

  lemma {:induction false} CleanServicesAgain(xs: seq<Service>)
    ensures CleanServices(CleanServices(xs)) == CleanServices(xs)
  {
    if xs != [] {
      var l := |xs| - 1;
      CleanServicesAgain(xs[..l]);
      var kept := CleanServices(xs[..l]);
      assert kept + [] == kept;
      if KeepsService(xs[l]) {
        var x := xs[l].(proto := OrDefault(xs[l].proto, TcpText));
        assert CleanServices(xs) == kept + [x];
        assert (kept + [x])[..|kept|] == kept && KeepsService(x);
      }
    }
  }

  lemma {:induction false} CleanForwardsAgain(fs: seq<PortForward>)
    ensures CleanForwards(CleanForwards(fs)) == CleanForwards(fs)
  {
    if fs != [] {
      var l := |fs| - 1;
      CleanForwardsAgain(fs[..l]);
      var kept := CleanForwards(fs[..l]);
      assert kept + [] == kept;
      if KeepsForward(fs[l]) {
        var f := fs[l].(proto := OrDefault(fs[l].proto, TcpText));
        assert CleanForwards(fs) == kept + [f];
        assert (kept + [f])[..|kept|] == kept && KeepsForward(f);
      }
    }
  }

  /** Sanitizing a second time changes nothing if and only if no rule that the first
      pass kept has a blind port. */
  lemma SanitizeIsIdempotent(s: Site, probe: AddrText, c: Config)
    ensures Sanitized(s, probe, Sanitized(s, probe, c)) == Sanitized(s, probe, c) <==>
            !HasBlindPort(s, probe, c.rules)
  {
    var d := Sanitized(s, probe, c);
    CleanDenyUnprotected(s, probe, c.denyCidrs);
    CleanDenyAgain(s, probe, d.denyCidrs);
    CleanAllowIsNormal(c.allowCidrs);
    CleanAllowAgain(d.allowCidrs);
    RulesKept(s, probe, c.rules);
    RulesKeepNoLockout(s, probe, c.rules);
    CleanRulesAgain(s, probe, d.rules);
    CleanServicesAgain(c.services);
    CleanForwardsAgain(c.forwards);
  }

  /** Sanitized ports are numbers, so the second pass is always the last. */
  lemma TwoPassesAreEnough(s: Site, probe: AddrText, c: Config)
    ensures var d := Sanitized(s, probe, Sanitized(s, probe, c));
            Sanitized(s, probe, d) == d
  {
    var d := Sanitized(s, probe, c);
    RulesKept(s, probe, c.rules);
    forall y | y in d.rules ensures y.dstPort != Given(0) {
      assert CleanRule(y) == y;
    }
    SanitizeIsIdempotent(s, probe, d);
  }
}
