/** The part of nftables that the firewall programs: one table with chains,
    sets, named counters and rules, the packets its chains judge, and the
    commands that build it. */
module Nft {
  import opened Ipv4
  import opened Options

  // ---- Packets ---------------------------------------------------------------

  datatype Iface = Lo | Ppp0 | Tailscale0 | OtherIface(n: nat)
  datatype CtState = New | Established | Related | Invalid | Untracked
  datatype L4 = Tcp | Udp | OtherL4(number: nat)
  datatype TcpFlags = TcpFlags(syn: bool, ack: bool, fin: bool, rst: bool)

  datatype Packet = Packet(
    iif: Iface, src: Addr, dst: Addr,
    l4: L4, sport: int, dport: int, flags: TcpFlags,
    ct: CtState)
  {
    // tcp flags & (fin|syn|rst|ack) == syn
    predicate IsBareSyn() {
      l4 == Tcp && flags.syn && !flags.ack && !flags.fin && !flags.rst
    }
  }

  // ---- Rules -----------------------------------------------------------------

  datatype Chain = Input | Forward | Prerouting
  datatype SetName = Bans | Allow | Deny | Scan
  datatype Counter =
    | DenyDrop | BanDrop | SynDrop | SynPass | WanInDrop | WanFwdDrop
    | DmzHits | ForwardHits(i: nat) | CustomHits(i: nat)

  datatype Match =
    | CtEstablishedOrRelated
    | CtNew
    | Iif(iface: Iface)
    | Saddr(net: Cidr)
    | SaddrNot(net: Cidr)
    | SaddrIn(name: SetName)
    | Daddr(net: Cidr)
    | DaddrNot(net: Cidr)
    | Proto(l4: L4)
    | Sport(l4: L4, port: int)
    | Dport(l4: L4, port: int)
    | SynSet
    | BareSyn
    | Limit(rate: int, burst: int)

  datatype Action =
    | Accept
    | Drop
    | UpdateScan                        // update @fw_scan_watch, then go on
    | Dnat(ip: Addr, port: Option<int>) // rewrite the destination, then accept

  datatype Rule = Rule(matches: seq<Match>, counter: Option<Counter>, action: Action)

  // ---- The table ---------------------------------------------------------------

  datatype Table =
    | Absent
    | Table(chains: map<Chain, seq<Rule>>, sets: map<SetName, set<Cidr>>, counters: set<Counter>)
  {
    function Rules(c: Chain): seq<Rule> {
      if Table? && c in chains then chains[c] else []
    }

    function Elements(s: SetName): set<Cidr> {
      if Table? && s in sets then sets[s] else {}
    }

    predicate Knows(r: Rule) {
      && Table?
      && (r.counter.Some? ==> r.counter.value in counters)
      && (r.action == UpdateScan ==> Scan in sets)
      && forall m <- r.matches :: m.SaddrIn? ==> m.name in sets
    }
  }

  datatype Command =
    | AddTable
    | FlushTable
    | AddChain(chain: Chain)
    | AddSet(name: SetName)
    | AddElements(name: SetName, elements: seq<Cidr>)
    | AddCounters(counters: set<Counter>)   // one `add counter` for each, sorted by name
    | AddRule(chain: Chain, rule: Rule)

  /** One `nft` invocation; None is an error. Adding an object that is already
      there is benign. Flushing a table removes the rules of its chains and
      leaves chains, set elements and counters alone. A rule may only name a
      chain, sets and a counter that exist. */
  function Run(cmd: Command, t: Table): Option<Table> {
    match cmd
    case AddTable => Some(if t.Absent? then Table(map[], map[], {}) else t)
    case FlushTable =>
      if t.Absent? then None
      else Some(t.(chains := map c | c in t.chains :: []))
    case AddChain(c) =>
      if t.Absent? then None
      else Some(if c in t.chains then t else t.(chains := t.chains[c := []]))
    case AddSet(s) =>
      if t.Absent? then None
      else Some(if s in t.sets then t else t.(sets := t.sets[s := {}]))
    case AddElements(s, es) =>
      if t.Absent? || s !in t.sets then None
      else Some(t.(sets := t.sets[s := t.sets[s] + (set e | e in es)]))
    case AddCounters(cs) =>
      if t.Absent? then None else Some(t.(counters := t.counters + cs))
    case AddRule(c, r) =>
      if t.Absent? || c !in t.chains || !t.Knows(r) then None
      else Some(t.(chains := t.chains[c := t.chains[c] + [r]]))
  }

  function RunAll(cmds: seq<Command>, t: Table): Option<Table> {
    if cmds == [] then Some(t)
    else
      match Run(cmds[0], t)
      case None => None
      case Some(t') => RunAll(cmds[1..], t')
  }

  lemma {:induction false} RunAllAppend(a: seq<Command>, b: seq<Command>, t: Table)
    ensures RunAll(a + b, t) ==
            match RunAll(a, t) { case None => None case Some(t') => RunAll(b, t') }
  {
    if a == [] {
      assert a + b == b;
    } else {
      assert (a + b)[1..] == a[1..] + b;
      match Run(a[0], t)
      case None =>
      case Some(t') => RunAllAppend(a[1..], b, t');
    }
  }

  // ---- Judging a packet --------------------------------------------------------

  /** What a rule can see beside the packet: the sets of the table, and whether
      the token bucket of the chain's `limit` statement still has a token. */
  datatype Env = Env(sets: map<SetName, set<Cidr>>, tokens: bool)

  predicate InSet(e: Env, s: SetName, a: Addr) {
    s in e.sets && exists n <- e.sets[s] :: n.Contains(a)
  }

  predicate Holds(m: Match, p: Packet, e: Env) {
    match m
    case CtEstablishedOrRelated => p.ct == Established || p.ct == Related
    case CtNew => p.ct == New
    case Iif(i) => p.iif == i
    case Saddr(n) => n.Contains(p.src)
    case SaddrNot(n) => !n.Contains(p.src)
    case SaddrIn(s) => InSet(e, s, p.src)
    case Daddr(n) => n.Contains(p.dst)
    case DaddrNot(n) => !n.Contains(p.dst)
    case Proto(l) => p.l4 == l
    case Sport(l, port) => p.l4 == l && p.sport == port
    case Dport(l, port) => p.l4 == l && p.dport == port
    case SynSet => p.l4 == Tcp && p.flags.syn
    case BareSyn => p.IsBareSyn()
    case Limit(_, _) => e.tokens
  }

  predicate Fires(r: Rule, p: Packet, e: Env) {
    forall m <- r.matches :: Holds(m, p, e)
  }

  /** First match: the action of the first rule that fires and ends the chain.
      None means that the packet reaches the chain's policy, which is accept. */
  function Verdict(rules: seq<Rule>, p: Packet, e: Env): Option<Action> {
    if rules == [] then None
    else if Fires(rules[0], p, e) && rules[0].action != UpdateScan then Some(rules[0].action)
    else Verdict(rules[1..], p, e)
  }

  predicate Accepts(rules: seq<Rule>, p: Packet, e: Env) {
    var v := Verdict(rules, p, e);
    v == None || v == Some(Accept)
  }

  lemma {:induction false} VerdictAppend(a: seq<Rule>, b: seq<Rule>, p: Packet, e: Env)
    ensures Verdict(a + b, p, e) == if Verdict(a, p, e) == None then Verdict(b, p, e) else Verdict(a, p, e)
  {
    if a == [] {
      assert a + b == b;
    } else {
      assert (a + b)[1..] == a[1..] + b;
      VerdictAppend(a[1..], b, p, e);
    }
  }

  /** A run of rules with one action decides exactly when one of them fires. */
  lemma {:induction false} VerdictOfUniform(rules: seq<Rule>, a: Action, p: Packet, e: Env)
    requires a != UpdateScan
    requires forall r <- rules :: r.action == a
    ensures Verdict(rules, p, e) == if exists r <- rules :: Fires(r, p, e) then Some(a) else None
  {
    if rules != [] {
      assert forall r <- rules[1..] :: r in rules;
      VerdictOfUniform(rules[1..], a, p, e);
      assert forall r <- rules :: r == rules[0] || r in rules[1..];
    }
  }

  /** The packet as the next hook sees it after the nat chain. */
  function Rewrite(rules: seq<Rule>, p: Packet, e: Env): Packet {
    match Verdict(rules, p, e)
    case Some(Dnat(ip, port)) =>
      p.(dst := ip, dport := if port.Some? then port.value else p.dport)
    case _ => p
  }
}
