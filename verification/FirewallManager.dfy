/** FirewallManager: sanitize, persist, apply, watchdog, revert and reconcile as
    a state machine, and the object whose methods take its steps. */
module FirewallManager {
  import opened Ipv4
  import opened Nft
  import opened FirewallConfig
  import opened FirewallRender
  import opened FirewallLoad
  import opened FirewallSanitize
  import opened Options

  /** The manager's fields, the two database settings and the kernel table.
      A signature is the configuration it was computed from: the topology does
      not change while no posture override is active. */
  datatype State = State(
    config: Config,
    lastGood: Option<Config>,
    lastSig: Option<Config>,
    appliedSig: Option<Config>,
    available: bool,
    stored: Option<Config>,       // database setting firewall_config
    storedGood: Option<Config>,   // database setting firewall_last_good
    bans: seq<Addr>,              // bans that have not run out
    table: Table)

  function PlanFor(s: Site, c: Config): Plan {
    PlanOf(RawConfig(c, [], DEFAULT_WEB_PORT), s.wan, s.localNets, s.boxIps)
  }

  // ---- The steps -------------------------------------------------------------------

  /** The rendered commands up to the one at which nft fails, if it does. */
  function Surviving(cmds: seq<Command>, fault: Option<nat>): seq<Command> {
    if fault.Some? && fault.value < |cmds| then cmds[..fault.value] else cmds
  }

  predicate Interrupted(s: Site, c: Config, fault: Option<nat>) {
    fault.Some? && fault.value < |Rendered(PlanFor(s, c))|
  }

  function BanNets(bans: seq<Addr>): set<Cidr> {
    set b | b in bans :: HostNet(b)
  }

  /** _reseed_bans: nft refuses an element of a set that is not there. */
  predicate BansLoad(bans: seq<Addr>, t: Table) {
    bans == [] || (t.Table? && Bans in t.sets)
  }

  function WithBans(bans: seq<Addr>, t: Table): Table {
    if t.Table? && Bans in t.sets then t.(sets := t.sets[Bans := t.sets[Bans] + BanNets(bans)]) else t
  }

  predicate ApplyOk(s: Site, m: State, c: Config, fault: Option<nat>) {
    m.available && !Interrupted(s, c, fault)
  }

  function Applied(s: Site, m: State, c: Config, fault: Option<nat>): State {
    if !m.available then m
    else if Interrupted(s, c, fault) then
      match RunAll(Surviving(Rendered(PlanFor(s, c)), fault), m.table)
      case Some(t) => m.(available := false, table := t)
      case None => m.(available := false)
    else
      var t := Loaded(PlanFor(s, c), m.table);
      m.(config := c, table := WithBans(m.bans, t), available := BansLoad(m.bans, t))
  }

  function Persisted(s: Site, m: State, c: Config): State {
    var clean := Sanitized(s, s.Probe(m.config), c);
    m.(stored := Some(clean), config := clean)
  }

  predicate SafeApplyOk(s: Site, m: State, data: Config, fault: Option<nat>) {
    var m1 := Persisted(s, m, data);
    m1.available && (m1.config.enabled ==> ApplyOk(s, m1, m1.config, fault))
  }

  function SafeApplied(s: Site, m: State, data: Config, fault: Option<nat>): State {
    var m1 := Persisted(s, m, data);
    if !m1.available then m1
    else
      var m2 := Applied(s, m1, m1.config, fault);
      if m1.config.enabled && ApplyOk(s, m1, m1.config, fault)
      then m2.(lastGood := Some(m.config), storedGood := Some(m.config))
      else m2
  }

  /** What a rollback goes back to, always switched on. */
  function Target(m: State): Config {
    var good := if m.storedGood.Some? then m.storedGood.value
                else if m.lastGood.Some? then m.lastGood.value else m.config;
    good.(enabled := true)
  }

  function Reverted(s: Site, m: State, fault: Option<nat>): State {
    Persisted(s, Applied(s, m, Target(m), fault), Target(m))
  }

  function WatchdogFired(s: Site, m: State, reachable: bool, fault: Option<nat>): State {
    if reachable then m else Reverted(s, m, fault)
  }

  /** load_config: the database setting is the master. */
  function Master(m: State): Config {
    if m.stored.Some? then m.stored.value else m.config
  }

  /** After the retry of an unavailable firewall, if one is due. */
  function Revived(m: State, retry: bool): State {
    var m0 := m.(config := Master(m));
    if !m0.available && retry then m0.(available := true, lastSig := None, appliedSig := None) else m0
  }

  predicate NeedsApply(m: State) {
    var sig := Some(Master(m));
    !(sig == m.lastSig && m.appliedSig == sig) || (Master(m).enabled && m.table.Absent?)
  }

  predicate ReconcileOk(s: Site, m: State, retry: bool, fault: Option<nat>) {
    var m0 := Revived(m, retry);
    m0.available && (NeedsApply(m0) ==> ApplyOk(s, m0, Master(m), fault))
  }

  /** The rebuild inside reconcile: both signatures after a success, one otherwise. */
  function Signed(s: Site, m: State, c: Config, fault: Option<nat>): State {
    var m' := Applied(s, m, c, fault);
    if ApplyOk(s, m, c, fault) then m'.(lastSig := Some(c), appliedSig := Some(c))
    else m'.(lastSig := Some(c))
  }

  function Reconciled(s: Site, m: State, retry: bool, fault: Option<nat>): State {
    var m0 := Revived(m, retry);
    if !m0.available || !NeedsApply(m0) then m0 else Signed(s, m0, Master(m), fault)
  }

  datatype Event =
    | SafeApply(data: Config, fault: Option<nat>)
    | Watchdog(reachable: bool, fault: Option<nat>)
    | Revert(fault: Option<nat>)
    | Reconcile(retry: bool, fault: Option<nat>)
    | RulesetFlushed                    // something outside wipes the kernel's tables
    | BanSet(bans: seq<Addr>)           // bans come and run out

  function Next(s: Site, m: State, e: Event): State {
    match e
    case SafeApply(data, fault) => SafeApplied(s, m, data, fault)
    case Watchdog(reachable, fault) => WatchdogFired(s, m, reachable, fault)
    case Revert(fault) => Reverted(s, m, fault)
    case Reconcile(retry, fault) => Reconciled(s, m, retry, fault)
    case RulesetFlushed => m.(table := Absent)
    case BanSet(bans) => m.(bans := bans)
  }

  function After(s: Site, m: State, es: seq<Event>): State {
    if es == [] then m else Next(s, After(s, m, es[..|es| - 1]), es[|es| - 1])
  }

  // ---- The object ------------------------------------------------------------------

  class Manager {
    const site: Site
    var config: Config
    var lastGood: Option<Config>
    var lastSig: Option<Config>
    var appliedSig: Option<Config>
    var available: bool
    var stored: Option<Config>
    var storedGood: Option<Config>
    var bans: seq<Addr>
    var table: Table

    constructor (site: Site, seed: Config, stored: Option<Config>, storedGood: Option<Config>, table: Table)
      ensures this.site == site
      ensures Now() == State(seed, None, None, None, true, stored, storedGood, [], table)
    {
      this.site := site;
      config, lastGood, lastSig, appliedSig, available := seed, None, None, None, true;
      this.stored, this.storedGood, bans, this.table := stored, storedGood, [], table;
    }

    ghost function Now(): State
      reads this
    {
      State(config, lastGood, lastSig, appliedSig, available, stored, storedGood, bans, table)
    }

    method Apply(c: Config, fault: Option<nat>) returns (ok: bool)
      modifies this`config, this`available, this`table
      ensures ok == ApplyOk(site, old(Now()), c, fault)
      ensures Now() == Applied(site, old(Now()), c, fault)
    {
      if !available {
        return false;
      }
      ok := ProgramConfig(c, fault);
      if ok {
        config := c;
        ReseedBans();
      }
    }

    method ProgramConfig(c: Config, fault: Option<nat>) returns (ok: bool)
      requires available
      modifies this`available, this`table
      ensures ok == available == !Interrupted(site, c, fault)
      ensures RunAll(Surviving(Rendered(PlanFor(site, c)), fault), old(table)) == Some(table)
      ensures ok ==> table == Loaded(PlanFor(site, c), old(table))
    {
      var cmds := RenderCommands(RawConfig(c, [], DEFAULT_WEB_PORT), site.wan, site.localNets, site.boxIps);
      RenderedLoads(PlanFor(site, c), table);
      ok := Program(cmds, fault);
    }

    /** The nft calls, one after the other, up to the first that fails. */
    method Program(cmds: seq<Command>, fault: Option<nat>) returns (ok: bool)
      requires available && RunAll(cmds, table).Some?
      modifies this`available, this`table
      ensures ok == available == !(fault.Some? && fault.value < |cmds|)
      ensures RunAll(Surviving(cmds, fault), old(table)) == Some(table)
    {
      var i := 0;
      while i < |cmds|
        invariant 0 <= i <= |cmds|
        invariant fault.Some? ==> i <= fault.value || |cmds| <= fault.value
        invariant RunAll(cmds[..i], old(table)) == Some(table)
        invariant available
      {
        if fault == Some(i) {
          available := false;
          return false;
        }
        OneMore(cmds, i, old(table), table);
        table := Nft.Run(cmds[i], table).value;
        i := i + 1;
      }
      assert cmds[..|cmds|] == cmds;
      ok := true;
    }

    method ReseedBans()
      requires available
      modifies this`available, this`table
      ensures available == BansLoad(bans, old(table)) && table == WithBans(bans, old(table))
    {
      assert BanNets([]) == {};
      if table.Table? && Bans in table.sets {
        ghost var base := table;
        assert base.sets[Bans] + {} == base.sets[Bans];
        assert base.sets[Bans := base.sets[Bans]] == base.sets;
        for i := 0 to |bans|
          invariant available && table == WithBans(bans[..i], base)
        {
          assert BanNets(bans[..i + 1]) == BanNets(bans[..i]) + {HostNet(bans[i])} by {
            assert bans[..i + 1] == bans[..i] + [bans[i]];
          }
          ghost var before := table;
          table := table.(sets := table.sets[Bans := table.sets[Bans] + {HostNet(bans[i])}]);
          assert before.sets[Bans] + {HostNet(bans[i])} == base.sets[Bans] + BanNets(bans[..i + 1]);
          assert table.sets == base.sets[Bans := base.sets[Bans] + BanNets(bans[..i + 1])];
        }
        assert bans[..|bans|] == bans;
      } else if bans != [] {
        available := false;
      }
    }

    method Persist(c: Config)
      modifies this`config, this`stored
      ensures Now() == Persisted(site, old(Now()), c)
    {
      var clean, _ := Sanitize(site, site.Probe(config), c);
      stored := Some(clean);
      config := clean;
    }

    method SafeApply(data: Config, fault: Option<nat>) returns (ok: bool)
      modifies this
      ensures ok == SafeApplyOk(site, old(Now()), data, fault)
      ensures Now() == SafeApplied(site, old(Now()), data, fault)
    {
      var previous := config;   // read before Persist makes the new one the master
      Persist(data);
      if !available {
        return false;
      }
      if !config.enabled {
        var _ := Apply(config, fault);
        return true;
      }
      ok := Apply(config, fault);
      if ok {
        lastGood := Some(previous);
        storedGood := Some(previous);
      }
    }

    method RevertLastGood(fault: Option<nat>)
      modifies this
      ensures Now() == Reverted(site, old(Now()), fault)
    {
      var good := if storedGood.Some? then storedGood.value else if lastGood.Some? then lastGood.value else config;
      if !good.enabled {
        good := good.(enabled := true);
      }
      var _ := Apply(good, fault);
      Persist(good);
    }

    method Watchdog(reachable: bool, fault: Option<nat>)
      modifies this
      ensures Now() == WatchdogFired(site, old(Now()), reachable, fault)
    {
      if !reachable {
        RevertLastGood(fault);
      }
    }

    /** load_config, and the retry of a firewall that nft failures switched off. */
    method Revive(retry: bool)
      modifies this`config, this`available, this`lastSig, this`appliedSig
      ensures Now() == Revived(old(Now()), retry) && config == Master(old(Now()))
    {
      if stored.Some? {
        config := stored.value;
      }
      if !available && retry {
        available, lastSig, appliedSig := true, None, None;
      }
    }

    method Reconcile(retry: bool, fault: Option<nat>) returns (ok: bool)
      modifies this
      ensures ok == ReconcileOk(site, old(Now()), retry, fault)
      ensures Now() == Reconciled(site, old(Now()), retry, fault)
    {
      Revive(retry);
      if !available {
        return false;
      }
      var sig := config;
      var changed := !(Some(sig) == lastSig && appliedSig == Some(sig));
      if !changed && sig.enabled && table.Absent? {
        changed := true;
      }
      ghost var m0 := Now();
      assert Master(m0) == sig && changed == NeedsApply(m0);
      ok := true;
      if changed {
        ok := ApplyAndSign(sig, fault);
      }
    }

    method ApplyAndSign(c: Config, fault: Option<nat>) returns (ok: bool)
      modifies this
      ensures ok == ApplyOk(site, old(Now()), c, fault)
      ensures Now() == Signed(site, old(Now()), c, fault)
    {
      ok := Apply(c, fault);
      lastSig := Some(c);
      if ok {
        appliedSig := Some(c);
      }
    }
  }

  lemma OneMore(cmds: seq<Command>, i: nat, t: Table, t': Table)
    requires i < |cmds| && RunAll(cmds, t).Some? && RunAll(cmds[..i], t) == Some(t')
    ensures Nft.Run(cmds[i], t').Some?
    ensures RunAll(cmds[..i + 1], t) == Nft.Run(cmds[i], t')
  {
    assert cmds == cmds[..i] + ([cmds[i]] + cmds[i + 1..]);
    RunPrefix(cmds[..i], [cmds[i]] + cmds[i + 1..], t, t');
    assert ([cmds[i]] + cmds[i + 1..])[0] == cmds[i];
    assert cmds[..i + 1] == cmds[..i] + [cmds[i]];
    RunPrefix(cmds[..i], [cmds[i]], t, t');
    RunOne(cmds[i], t');
  }
}
