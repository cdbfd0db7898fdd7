/** Domain rules: render_rules writes dnsmasq directives, resolve_domain_status
    predicts what they do to a lookup. */
module DnsRules {
  import opened StableSort
  import opened Options

  datatype Scope = Global | User | Device | OtherScope
  datatype Action = Block | Allow | Redirect | OtherAction

  /** A row of the rule table. An absent target address is the empty text. */
  datatype Rule = Rule(
    scope: Scope, scopeId: Option<int>, action: Action,
    domain: string, target: string, enabled: bool)

  const BLACKHOLE := "0.0.0.0"

  // ---- dnsmasq -----------------------------------------------------------------------

  /** One line of the generated file. The tag is the device it is for; an
      untagged line is for everyone. No target means `server=/domain/#`: resolve
      the domain normally. */
  datatype Directive =
    | Override(tag: Option<int>, domain: string, target: Option<string>)
    | Upstream(tag: Option<int>, server: string)

  /** dnsmasq's domain match: the domain itself or any subdomain of it. */
  predicate DomainMatches(query: string, domain: string) {
    || query == domain
    || (|query| >= |domain| + 1 && query[|query| - |domain| - 1..] == "." + domain)
  }

  predicate Reaches(d: Directive, query: string, device: Option<int>) {
    && d.Override?
    && (d.tag == None || d.tag == device)
    && DomainMatches(query, d.domain)
  }

  /** The line in effect: the longest matching domain, and among equally long
      ones the last line of the file. */
  function Effective(ds: seq<Directive>, query: string, device: Option<int>): (e: Option<Directive>)
    ensures e.Some? ==> Reaches(e.value, query, device)
  {
    if ds == [] then None
    else
      var d, e := ds[|ds| - 1], Effective(ds[..|ds| - 1], query, device);
      if Reaches(d, query, device) && (e == None || |e.value.domain| <= |d.domain|) then Some(d) else e
  }

  // ---- Rendering ---------------------------------------------------------------------

  // str.isspace
  predicate IsSpace(c: char) {
    || '\t' <= c <= '\r' || '\U{1C}' <= c <= ' '
    || c in {'\U{85}', '\U{A0}', '\U{1680}', '\U{2028}', '\U{2029}', '\U{202F}', '\U{205F}', '\U{3000}'}
    || '\U{2000}' <= c <= '\U{200A}'
  }

  // _is_safe_config_token
  predicate IsSafe(t: string) {
    t != "" && forall c <- t :: !IsSpace(c)
  }

  function ScopeOrder(s: Scope): int {
    match s case User => 1 case Device => 2 case _ => 0
  }

  /** The sort key of the file: broader scopes first, and inside a scope the
      allow rules last. The two-part key is folded into one number. */
  function FileRank(r: Rule): int {
    2 * ScopeOrder(r.scope) + if r.action == Allow then 1 else 0
  }

  // _tags_for
  function TagsFor(scope: Scope, id: Option<int>, byUser: map<int, seq<int>>): seq<Option<int>> {
    match scope
    case Global => [None]
    case Device => if id.Some? then [id] else []
    case User =>
      if id.Some? && id.value in byUser
      then seq(|byUser[id.value]|, i requires 0 <= i < |byUser[id.value]| => Some(byUser[id.value][i]))
      else []
    case OtherScope => []
  }

  function TargetText(r: Rule): string {
    if r.target == "" then BLACKHOLE else r.target
  }

  /** What a rule makes of its domain: None is the normal upstream answer. */
  function TargetOf(r: Rule): Option<string> {
    match r.action
    case Allow => None
    case Redirect => Some(TargetText(r))
    case _ => Some(BLACKHOLE)
  }

  predicate Renderable(r: Rule) {
    && r.enabled
    && IsSafe(r.domain)
    && (r.action == Redirect ==> IsSafe(TargetText(r)))
  }

  function LinesFor(domain: string, target: Option<string>, tags: seq<Option<int>>): seq<Directive> {
    seq(|tags|, i requires 0 <= i < |tags| => Override(tags[i], domain, target))
  }

  function LinesOf(r: Rule, tags: seq<Option<int>>): seq<Directive> {
    LinesFor(r.domain, TargetOf(r), tags)
  }

  function RuleLines(r: Rule, byUser: map<int, seq<int>>): seq<Directive> {
    if Renderable(r) then LinesOf(r, TagsFor(r.scope, r.scopeId, byUser)) else []
  }

  function AllLines(rs: seq<Rule>, byUser: map<int, seq<int>>): seq<Directive> {
    if rs == [] then []
    else AllLines(rs[..|rs| - 1], byUser) + RuleLines(rs[|rs| - 1], byUser)
  }

  lemma AllLinesSnoc(rs: seq<Rule>, r: Rule, byUser: map<int, seq<int>>)
    ensures AllLines(rs + [r], byUser) == AllLines(rs, byUser) + RuleLines(r, byUser)
  {
    assert (rs + [r])[..|rs|] == rs;
  }

  datatype Server = Server(scope: Scope, scopeId: Option<int>, ip: string)

  function ServerLines(ss: seq<Server>, byUser: map<int, seq<int>>): seq<Directive> {
    if ss == [] then []
    else
      var s := ss[|ss| - 1];
      var tags := TagsFor(s.scope, s.scopeId, byUser);
      ServerLines(ss[..|ss| - 1], byUser)
      + if IsSafe(s.ip) then seq(|tags|, i requires 0 <= i < |tags| => Upstream(tags[i], s.ip)) else []
  }

  function Rendered(rs: seq<Rule>, ss: seq<Server>, byUser: map<int, seq<int>>): seq<Directive> {
    AllLines(Sort(rs, FileRank), byUser) + ServerLines(ss, byUser)
  }

  method EmitForTags(domain: string, target: Option<string>, tags: seq<Option<int>>) returns (lines: seq<Directive>)
    ensures lines == LinesFor(domain, target, tags)
  {
    lines := [];
    for j := 0 to |tags|
      invariant lines == LinesFor(domain, target, tags[..j])
    {
      lines := lines + [Override(tags[j], domain, target)];
    }
    assert tags[..|tags|] == tags;
  }

  method RenderRule(rule: Rule, byUser: map<int, seq<int>>) returns (lines: seq<Directive>)
    ensures lines == RuleLines(rule, byUser)
  {
    if !rule.enabled || !IsSafe(rule.domain) {
      return [];
    }
    var target := None;
    if rule.action == Redirect {
      target := Some(if rule.target == "" then BLACKHOLE else rule.target);
      if !IsSafe(target.value) {
        return [];
      }
    } else if rule.action != Allow {
      target := Some(BLACKHOLE);
    }
    lines := EmitForTags(rule.domain, target, TagsFor(rule.scope, rule.scopeId, byUser));
  }

  method RenderRules(rs: seq<Rule>, ss: seq<Server>, byUser: map<int, seq<int>>) returns (lines: seq<Directive>)
    ensures lines == Rendered(rs, ss, byUser)
  {
    lines := [];
    var ordered := Sort(rs, FileRank);
    for i := 0 to |ordered|
      invariant lines == AllLines(ordered[..i], byUser)
    {
      assert ordered[..i + 1] == ordered[..i] + [ordered[i]];
      AllLinesSnoc(ordered[..i], ordered[i], byUser);
      var mine := RenderRule(ordered[i], byUser);
      lines := lines + mine;
    }
    assert ordered[..|ordered|] == ordered;
    var upstream := RenderServers(ss, byUser);
    lines := lines + upstream;
  }

  method RenderServers(ss: seq<Server>, byUser: map<int, seq<int>>) returns (lines: seq<Directive>)
    ensures lines == ServerLines(ss, byUser)
  {
    lines := [];
    for i := 0 to |ss|
      invariant lines == ServerLines(ss[..i], byUser)
    {
      assert ss[..i + 1][..i] == ss[..i];
      if IsSafe(ss[i].ip) {
        var tags := TagsFor(ss[i].scope, ss[i].scopeId, byUser);
        ghost var before := lines;
        for j := 0 to |tags|
          invariant lines == before + seq(j, k requires 0 <= k < j => Upstream(tags[k], ss[i].ip))
        {
          lines := lines + [Upstream(tags[j], ss[i].ip)];
        }
      }
    }
    assert ss[..|ss|] == ss;
  }

  // ---- The resolver --------------------------------------------------------------------

  predicate InScope(r: Rule, device: Option<int>, user: Option<int>) {
    match r.scope
    case Global => true
    case Device => device.Some? && r.scopeId == device
    case User => user.Some? && r.scopeId == user
    case OtherScope => false
  }

  predicate Applies(r: Rule, query: string, device: Option<int>, user: Option<int>) {
    r.enabled && r.domain != "" && DomainMatches(query, r.domain) && InScope(r, device, user)
  }

  /** The sort key of the candidates: length first, then as in the file. */
  function CandidateRank(r: Rule): int {
    6 * |r.domain| + FileRank(r)
  }

  function Length(r: Rule): int { |r.domain| }

  function Candidates(rs: seq<Rule>, query: string, device: Option<int>, user: Option<int>): seq<Rule> {
    Filter(rs, r => Applies(r, query, device, user))
  }

  datatype Status = NoRule | Blocked | Allowed | Redirected

  function StatusOf(a: Action): Status {
    match a
    case Block => Blocked
    case Allow => Allowed
    case Redirect => Redirected
    case OtherAction => NoRule
  }

  /** The rule that decides: the greatest candidate, the last one on a tie. */
  function Winner(rs: seq<Rule>, query: string, device: Option<int>, user: Option<int>): Option<Rule> {
    Best(Candidates(rs, query, device, user), CandidateRank)
  }

  method ResolveDomainStatus(query: string, rs: seq<Rule>, device: Option<int>, user: Option<int>)
    returns (status: Status, winner: Option<Rule>)
    ensures winner == Winner(rs, query, device, user)
    ensures status == if winner.Some? then StatusOf(winner.value.action) else NoRule
  {
    var candidates := [];
    for i := 0 to |rs|
      invariant candidates == Candidates(rs[..i], query, device, user)
    {
      assert rs[..i + 1][..i] == rs[..i];
      var rule := rs[i];
      if !rule.enabled || rule.domain == "" || !DomainMatches(query, rule.domain) {
        continue;
      }
      var applies := false;
      if rule.scope == Global {
        applies := true;
      } else if rule.scope == Device {
        applies := device.Some? && rule.scopeId == device;
      } else if rule.scope == User {
        applies := user.Some? && rule.scopeId == user;
      }
      if applies {
        candidates := candidates + [rule];
      }
    }
    assert rs[..|rs|] == rs;
    if candidates == [] {
      return NoRule, None;
    }
    LastOfSort(candidates, CandidateRank);
    candidates := Sort(candidates, CandidateRank);
    winner := Some(candidates[|candidates| - 1]);
    status := StatusOf(winner.value.action);
  }

  // ---- Devices and their owners ------------------------------------------------------------

  datatype DeviceRow = DeviceRow(id: int, owner: Option<int>)

  predicate Owns(byUser: map<int, seq<int>>, u: int, d: int) {
    u in byUser && d in byUser[u]
  }

  /** The tag lists and the resolver's (device, user) pair speak of the same owner. */
  ghost predicate OwnerAgrees(byUser: map<int, seq<int>>, device: Option<int>, user: Option<int>) {
    && (device == None ==> user == None)
    && (device.Some? ==> forall u :: Owns(byUser, u, device.value) <==> user == Some(u))
  }

  // The loop of _sync_dns_rules
  method DeviceIdsByUser(devices: seq<DeviceRow>) returns (byUser: map<int, seq<int>>)
    ensures forall u, d :: Owns(byUser, u, d) <==> DeviceRow(d, Some(u)) in devices
  {
    byUser := map[];
    for i := 0 to |devices|
      invariant forall u, d :: Owns(byUser, u, d) <==> DeviceRow(d, Some(u)) in devices[..i]
    {
      var dev := devices[i];
      ghost var before := byUser;
      if dev.owner.Some? {
        var u := dev.owner.value;
        if u !in byUser {
          byUser := byUser[u := []];
        }
        byUser := byUser[u := byUser[u] + [dev.id]];
        assert forall v, d :: Owns(byUser, v, d) <==> Owns(before, v, d) || (v == u && d == dev.id);
      }
      assert devices[..i + 1] == devices[..i] + [dev];
    }
    assert devices[..|devices|] == devices;
  }

  /** Device ids are unique in the table, so the lists name each device's one owner. */
  lemma ListedOwnerAgrees(devices: seq<DeviceRow>, byUser: map<int, seq<int>>, dev: DeviceRow)
    requires forall u, d :: Owns(byUser, u, d) <==> DeviceRow(d, Some(u)) in devices
    requires forall a, b :: a in devices && b in devices && a.id == b.id ==> a == b
    requires dev in devices
    ensures OwnerAgrees(byUser, Some(dev.id), dev.owner)
  {
    forall u ensures Owns(byUser, u, dev.id) <==> dev.owner == Some(u) {
      if dev.owner == Some(u) {
        assert dev == DeviceRow(dev.id, Some(u));
      }
    }
  }
}
