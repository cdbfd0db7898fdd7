/** Runs in which nft may fail and the ruleset may be flushed at any point: when
    the signatures of reconcile can be trusted, and what a rollback brings back. */
module FirewallRuns {
  import opened Ipv4
  import opened Nft
  import opened FirewallConfig
  import opened FirewallRender
  import opened FirewallLoad
  import opened FirewallSanitize
  import opened FirewallManager
  import opened Options

  /** The database, the manager and the kernel hold one configuration. */
  predicate InSync(s: Site, m: State) {
    m.stored == Some(m.config) && Implements(m.table, PlanFor(s, m.config))
  }

  /** When the signature compare of reconcile sees nothing to do, nothing is. */
  predicate Settled(s: Site, m: State) {
    m.available && m.table.Table? && m.lastSig == m.appliedSig == Some(Master(m))
    ==> Implements(m.table, PlanFor(s, Master(m)))
  }

  /** A configuration the sanitizer has nothing to change in. */
  predicate CleanUnder(s: Site, probe: AddrText, c: Config) {
    s.Probe(c) == probe && Sanitized(s, probe, c) == c
  }

  predicate CleanIfSome(s: Site, probe: AddrText, c: Option<Config>) {
    c.Some? ==> CleanUnder(s, probe, c.value)
  }

  /** Every configuration a rollback or a restart could bring back is clean. */
  predicate AllClean(s: Site, probe: AddrText, m: State) {
    && CleanUnder(s, probe, m.config)
    && CleanIfSome(s, probe, m.stored)
    && CleanIfSome(s, probe, m.lastGood)
    && CleanIfSome(s, probe, m.storedGood)
  }

  lemma AppliedImplements(s: Site, m: State, c: Config, fault: Option<nat>)
    requires ApplyOk(s, m, c, fault)
    ensures var m' := Applied(s, m, c, fault);
            m'.config == c && Implements(m'.table, PlanFor(s, c))
            && m' == m.(config := c, table := m'.table, available := m'.available)
            && m'.table.Table?
  {
    LoadedImplements(PlanFor(s, c), m.table);
  }

  lemma FailedApplyIsUnavailable(s: Site, m: State, c: Config, fault: Option<nat>)
    requires !ApplyOk(s, m, c, fault)
    ensures var m' := Applied(s, m, c, fault);
            !m'.available && m' == m.(available := false, table := m'.table)
  {
  }

  lemma PersistedIsClean(s: Site, m: State, c: Config, probe: AddrText)
    requires s.Probe(m.config) == probe && s.Probe(c) == probe && !HasBlindPort(s, probe, c.rules)
    ensures CleanUnder(s, probe, Persisted(s, m, c).config)
    ensures Sanitized(s, probe, c) == c ==> Persisted(s, m, c).config == c
  {
    SanitizeIsIdempotent(s, probe, c);
  }

  lemma EnabledStaysClean(s: Site, probe: AddrText, c: Config)
    ensures CleanUnder(s, probe, c.(enabled := true)) <==> CleanUnder(s, probe, c)
  {
  }

  // ---- One call ------------------------------------------------------------------------

  /** A safe apply that succeeds leaves all three places with the sanitized data. */
  lemma SafeApplySyncs(s: Site, m: State, data: Config, fault: Option<nat>)
    requires SafeApplyOk(s, m, data, fault)
    requires Sanitized(s, s.Probe(m.config), data).enabled || !Interrupted(s, Sanitized(s, s.Probe(m.config), data), fault)
    ensures var m' := SafeApplied(s, m, data, fault);
            InSync(s, m') && m'.config == Sanitized(s, s.Probe(m.config), data)
            && (m'.config.enabled ==> m'.storedGood == Some(m.config))
  {
    var m1 := Persisted(s, m, data);
    AppliedImplements(s, m1, m1.config, fault);
  }

  lemma RevertKeepsClean(s: Site, probe: AddrText, m: State, fault: Option<nat>)
    requires AllClean(s, probe, m)
    ensures AllClean(s, probe, Reverted(s, m, fault))
    ensures Reverted(s, m, fault).stored == Some(Target(m))
    ensures Reverted(s, m, fault).config == Target(m)
    ensures Reverted(s, m, fault).available ==> Implements(Reverted(s, m, fault).table, PlanFor(s, Target(m)))
  {
    var good := if m.storedGood.Some? then m.storedGood.value
                else if m.lastGood.Some? then m.lastGood.value else m.config;
    EnabledStaysClean(s, probe, good);
    var m1 := Applied(s, m, Target(m), fault);
    if ApplyOk(s, m, Target(m), fault) {
      AppliedImplements(s, m, Target(m), fault);
    } else {
      FailedApplyIsUnavailable(s, m, Target(m), fault);
    }
    SanitizeIsIdempotent(s, probe, Target(m));
    PersistedIsClean(s, m1, Target(m), probe);
  }

  lemma ReconcileKeeps(s: Site, m: State, retry: bool, fault: Option<nat>)
    requires Settled(s, m)
    ensures Settled(s, Reconciled(s, m, retry, fault))
    ensures var m' := Reconciled(s, m, retry, fault);
            && m'.config == Master(m) && m'.stored == m.stored
            && m'.lastGood == m.lastGood && m'.storedGood == m.storedGood
    ensures ReconcileOk(s, m, retry, fault) ==>
            Implements(Reconciled(s, m, retry, fault).table, PlanFor(s, Master(m)))
  {
    var m0 := Revived(m, retry);
    assert Master(m0) == Master(m);
    if m0.available && NeedsApply(m0) {
      if ApplyOk(s, m0, Master(m), fault) {
        AppliedImplements(s, m0, Master(m), fault);
      } else {
        FailedApplyIsUnavailable(s, m0, Master(m), fault);
      }
    }
  }

  // ---- Every run ------------------------------------------------------------------------

  predicate RollsBack(e: Event) {
    e.Revert? || (e.Watchdog? && !e.reachable)
  }

  predicate SameChains(p: Plan, q: Plan) {
    && (if p.cfg.enabled then InputRules(p) else []) == (if q.cfg.enabled then InputRules(q) else [])
    && (if p.cfg.enabled then ForwardChain(p) else []) == (if q.cfg.enabled then ForwardChain(q) else [])
    && (if p.cfg.enabled then PreroutingChain(p) else []) == (if q.cfg.enabled then PreroutingChain(q) else [])
  }

  /** What a rollback stores: its target as the sanitizer leaves it. */
  function CleanTarget(s: Site, m: State): Config {
    Sanitized(s, s.Probe(Target(m)), Target(m))
  }

  /** A rollback programs its target and stores the sanitized one. That is safe
      when the two render to the same chains, or when the signature is not that of
      the stored one, so that the next reconcile programs it. */
  predicate RollbackSafe(s: Site, m: State) {
    || SameChains(PlanFor(s, Target(m)), PlanFor(s, CleanTarget(s, m)))
    || !(m.lastSig == m.appliedSig == Some(CleanTarget(s, m)))
  }

  /** The ban set survives a reload, and every ruleset that is switched on has one. */
  lemma LoadedKeepsBanSet(p: Plan, t: Table)
    ensures Loaded(p, t).Table?
    ensures t.Table? && Bans in t.sets ==> Bans in Loaded(p, t).sets
    ensures p.cfg.enabled ==> Bans in Loaded(p, t).sets
  {
  }

  function FaultOf(e: Event): Option<nat> {
    match e
    case SafeApply(_, fault) => fault
    case Watchdog(_, fault) => fault
    case Revert(fault) => fault
    case Reconcile(_, fault) => fault
    case _ => None
  }

  /** Whether nft carries a rollback out. */
  predicate RollbackWorks(s: Site, m: State, fault: Option<nat>) {
    ApplyOk(s, m, Target(m), fault)
  }

  lemma RevertSettles(s: Site, m: State, fault: Option<nat>)
    ensures Settled(s, Reverted(s, m, fault)) <==> (RollbackWorks(s, m, fault) ==> RollbackSafe(s, m))
  {
    if ApplyOk(s, m, Target(m), fault) {
      AppliedImplements(s, m, Target(m), fault);
      LoadedKeepsBanSet(PlanFor(s, Target(m)), m.table);
    } else {
      FailedApplyIsUnavailable(s, m, Target(m), fault);
    }
  }

  /** One step, with nft failing anywhere: the signatures stay trustworthy if and
      only if the step is not an unsafe rollback that nft carries out. */
  lemma StepSettles(s: Site, m: State, e: Event)
    requires Settled(s, m)
    ensures Settled(s, Next(s, m, e)) <==> (RollsBack(e) && RollbackWorks(s, m, FaultOf(e)) ==> RollbackSafe(s, m))
  {
    match e
    case SafeApply(data, fault) =>
      var m1 := Persisted(s, m, data);
      if ApplyOk(s, m1, m1.config, fault) {
        AppliedImplements(s, m1, m1.config, fault);
      } else {
        FailedApplyIsUnavailable(s, m1, m1.config, fault);
      }
    case Watchdog(reachable, fault) => RevertSettles(s, m, fault);
    case Revert(fault) => RevertSettles(s, m, fault);
    case Reconcile(retry, fault) => ReconcileKeeps(s, m, retry, fault);
    case RulesetFlushed =>
    case BanSet(_) =>
  }

  /** No rollback that nft carries out is unsafe at its moment. */
  predicate SafeRun(s: Site, m: State, es: seq<Event>) {
    es != [] ==>
      var l := |es| - 1;
      var before := After(s, m, es[..l]);
      && SafeRun(s, m, es[..l])
      && (RollsBack(es[l]) && RollbackWorks(s, before, FaultOf(es[l])) ==> RollbackSafe(s, before))
  }

  lemma {:induction false} RunKeeps(s: Site, m: State, es: seq<Event>)
    requires Settled(s, m) && SafeRun(s, m, es)
    ensures Settled(s, After(s, m, es))
  {
    if es != [] {
      var l := |es| - 1;
      RunKeeps(s, m, es[..l]);
      StepSettles(s, After(s, m, es[..l]), es[l]);
    }
  }

  /** After any run of applies, watchdog verdicts, safe rollbacks, reconciles,
      outside flushes and nft failures, a reconcile that reports success leaves the
      chains in the kernel equal to what the stored configuration renders to. */
  lemma SuccessfulReconcileSyncs(s: Site, m: State, es: seq<Event>, retry: bool, fault: Option<nat>)
    requires Settled(s, m) && SafeRun(s, m, es)
    requires ReconcileOk(s, After(s, m, es), retry, fault)
    ensures var before := After(s, m, es);
            var after := After(s, m, es + [Reconcile(retry, fault)]);
            Implements(after.table, PlanFor(s, Master(before))) && (before.stored.Some? ==> InSync(s, after))
  {
    RunKeeps(s, m, es);
    ReconcileSyncs(s, After(s, m, es), retry, fault);
    AfterSnoc(s, m, es, Reconcile(retry, fault));
  }

  lemma AfterSnoc(s: Site, m: State, es: seq<Event>, e: Event)
    ensures After(s, m, es + [e]) == Next(s, After(s, m, es), e)
  {
    assert (es + [e])[..|es|] == es;
  }

  lemma ReconcileSyncs(s: Site, m: State, retry: bool, fault: Option<nat>)
    requires Settled(s, m) && ReconcileOk(s, m, retry, fault)
    ensures var m' := Reconciled(s, m, retry, fault);
            Implements(m'.table, PlanFor(s, Master(m))) && (m.stored.Some? ==> InSync(s, m'))
  {
    ReconcileKeeps(s, m, retry, fault);
  }

  // ---- Runs in which every rollback is safe ------------------------------------------------

  predicate KeepsProbe(s: Site, probe: AddrText, e: Event) {
    e.SafeApply? ==> s.Probe(e.data) == probe && !HasBlindPort(s, probe, e.data.rules)
  }

  lemma StepKeepsClean(s: Site, probe: AddrText, m: State, e: Event)
    requires AllClean(s, probe, m) && KeepsProbe(s, probe, e)
    ensures AllClean(s, probe, Next(s, m, e))
    ensures RollsBack(e) ==> RollbackSafe(s, m)
  {
    match e
    case SafeApply(data, fault) => SafeApplyKeepsClean(s, probe, m, data, fault);
    case Watchdog(reachable, fault) =>
      RevertKeepsClean(s, probe, m, fault);
      TargetIsClean(s, probe, m);
    case Revert(fault) =>
      RevertKeepsClean(s, probe, m, fault);
      TargetIsClean(s, probe, m);
    case Reconcile(retry, fault) => ReconcileKeepsClean(s, probe, m, retry, fault);
    case RulesetFlushed =>
    case BanSet(_) =>
  }

  lemma SafeApplyKeepsClean(s: Site, probe: AddrText, m: State, data: Config, fault: Option<nat>)
    requires AllClean(s, probe, m) && s.Probe(data) == probe && !HasBlindPort(s, probe, data.rules)
    ensures AllClean(s, probe, SafeApplied(s, m, data, fault))
  {
    var m1 := Persisted(s, m, data);
    PersistedIsClean(s, m, data, probe);
    if ApplyOk(s, m1, m1.config, fault) {
      AppliedImplements(s, m1, m1.config, fault);
    } else {
      FailedApplyIsUnavailable(s, m1, m1.config, fault);
    }
  }

  lemma TargetIsClean(s: Site, probe: AddrText, m: State)
    requires AllClean(s, probe, m)
    ensures CleanTarget(s, m) == Target(m)
  {
    EnabledStaysClean(s, probe, if m.storedGood.Some? then m.storedGood.value
                                else if m.lastGood.Some? then m.lastGood.value else m.config);
  }

  lemma ReconcileKeepsClean(s: Site, probe: AddrText, m: State, retry: bool, fault: Option<nat>)
    requires AllClean(s, probe, m)
    ensures AllClean(s, probe, Reconciled(s, m, retry, fault))
  {
    var m0 := Revived(m, retry);
    if ApplyOk(s, m0, Master(m), fault) {
      AppliedImplements(s, m0, Master(m), fault);
    } else {
      FailedApplyIsUnavailable(s, m0, Master(m), fault);
    }
  }

  /** As long as the effective probe address stays the same and the first
      configurations are clean under it, every rollback is safe. */
  lemma {:induction false} OneProbeIsSafe(s: Site, probe: AddrText, m: State, es: seq<Event>)
    requires AllClean(s, probe, m) && forall e <- es :: KeepsProbe(s, probe, e)
    ensures AllClean(s, probe, After(s, m, es)) && SafeRun(s, m, es)
  {
    if es != [] {
      var l := |es| - 1;
      OneProbeIsSafe(s, probe, m, es[..l]);
      StepKeepsClean(s, probe, After(s, m, es[..l]), es[l]);
    }
  }

  /** After something outside removed the table, the rebuilt one also has exactly
      the allow and deny lists of the stored configuration. */
  lemma FlushedRulesetIsRestored(s: Site, m: State, retry: bool, fault: Option<nat>)
    requires Settled(s, m) && m.table.Absent? && ReconcileOk(s, m, retry, fault) && Master(m).enabled
    ensures var m' := Reconciled(s, m, retry, fault);
            Implements(m'.table, PlanFor(s, Master(m))) && ListsAgree(m'.table, PlanFor(s, Master(m)))
  {
    ReconcileKeeps(s, m, retry, fault);
    var p := PlanFor(s, Master(m));
    StaleElements(p, Absent);
    var t := Loaded(p, Absent);
    assert WithBans(m.bans, t).Elements(Deny) == t.Elements(Deny);
    assert WithBans(m.bans, t).Elements(Allow) == t.Elements(Allow);
  }

  predicate Quiet(e: Event) {
    e.Reconcile? || e.RulesetFlushed? || e.BanSet? || (e.Watchdog? && e.reachable)
  }

  lemma {:induction false} QuietRunKeepsTarget(s: Site, m: State, es: seq<Event>)
    requires forall e <- es :: Quiet(e)
    ensures After(s, m, es).storedGood == m.storedGood
  {
    if es != [] {
      var l := |es| - 1;
      QuietRunKeepsTarget(s, m, es[..l]);
      var before := After(s, m, es[..l]);
      QuietStepKeepsTarget(s, before, es[l]);
    }
  }

  lemma QuietStepKeepsTarget(s: Site, m: State, e: Event)
    requires Quiet(e)
    ensures Next(s, m, e).storedGood == m.storedGood
  {
    if e.Reconcile? {
      AppliedKeepsTarget(s, Revived(m, e.retry), Master(m), e.fault);
    }
  }

  lemma AppliedKeepsTarget(s: Site, m: State, c: Config, fault: Option<nat>)
    ensures Applied(s, m, c, fault).storedGood == m.storedGood
  {
    if ApplyOk(s, m, c, fault) {
      AppliedImplements(s, m, c, fault);
    } else {
      FailedApplyIsUnavailable(s, m, c, fault);
    }
  }

  /** The watchdog's verdict. Programming a configuration and finding management
      unreachable brings back the chains of the configuration in force just before
      that apply. The stored configuration goes back to it too exactly when the
      sanitizer, asked to protect that configuration's own probe address, would
      leave it alone. */
  lemma UnreachableRestoresPrevious(s: Site, m: State, data: Config, es: seq<Event>)
    requires SafeApplyOk(s, m, data, None)
    requires Sanitized(s, s.Probe(m.config), data).enabled
    requires forall e <- es :: Quiet(e)
    requires After(s, SafeApplied(s, m, data, None), es).available
    ensures var m' := WatchdogFired(s, After(s, SafeApplied(s, m, data, None), es), false, None);
            var previous := m.config.(enabled := true);
            && Implements(m'.table, PlanFor(s, previous))
            && m'.stored == Some(m'.config)
            && (m'.stored == Some(previous) <==> Sanitized(s, s.Probe(m.config), m.config) == m.config)
  {
    var m1 := SafeApplied(s, m, data, None);
    SafeApplySyncs(s, m, data, None);
    QuietRunKeepsTarget(s, m1, es);
    var m2 := After(s, m1, es);
    var previous := m.config.(enabled := true);
    assert Target(m2) == previous;
    AppliedImplements(s, m2, previous, None);
    EnabledStaysClean(s, s.Probe(m.config), m.config);
    assert s.Probe(previous) == s.Probe(m.config);
  }

  // ---- Why the condition is needed -------------------------------------------------------

  const PROBE: Addr := 0xcb00_7105          // 203.0.113.5
  const PROBE_BLOCK: AddrText := Block(0xcb00_7100, 24)

  function Plain(probe: AddrText, deny: seq<AddrText>): Config {
    Config(true, 45, probe, [], [], Blank, [], [], deny, 10, 20, true, false, 0)
  }

  /** The sanitizer protects the probe address of the configuration in force, not
      the one that arrives: a configuration that sets a probe address and denies
      its network is accepted, and is not stable once it is in force. */
  lemma OwnProbeIsNotProtected(m: State)
    requires m.config == Plain(Blank, []) && m.available
    ensures var s := Site(false, [], [], None, Blank, Blank);
            var data := Plain(Host(PROBE), [PROBE_BLOCK]);
            && Persisted(s, m, data).config == data
            && Sanitized(s, s.Probe(data), data) != data
  {
    var s := Site(false, [], [], None, Blank, Blank);
    var data := Plain(Host(PROBE), [PROBE_BLOCK]);
    assert [PROBE_BLOCK][..0] == [];
    assert CleanDeny(s, Blank, []) == [] && CleanDeny(s, Host(PROBE), []) == [];
    BlockHoldsProbe();
    assert Host(PROBE) in [Host(PROBE), Blank, Blank];
    assert IsProtected(s, Host(PROBE), PROBE_BLOCK);
    assert !IsProtected(s, Blank, PROBE_BLOCK);
    assert CleanDeny(s, Blank, data.denyCidrs) == [PROBE_BLOCK];
    assert CleanDeny(s, Host(PROBE), data.denyCidrs) == [];
  }

  const LOCKOUT: CustomRule := CustomRule(OnInput, DenyText, PROBE_BLOCK, Blank, AnyProto, 0, Unset, true)
  const BARE: Site := Site(false, [], [], None, Blank, Blank)

  /** An apply of a stable configuration. */
  lemma ApplyOfStable(s: Site, m: State, c: Config)
    requires m.available && m.bans == [] && c.enabled && Sanitized(s, s.Probe(m.config), c) == c
    ensures var m' := SafeApplied(s, m, c, None);
            && m'.config == c && m'.stored == Some(c) && m'.storedGood == Some(m.config)
            && m'.available && m'.bans == []
  {
    AppliedImplements(s, Persisted(s, m, c), c, None);
  }

  /** A reconcile without failures signs the stored configuration. */
  lemma ReconcileSigns(s: Site, m: State, c: Config)
    requires m.available && m.bans == [] && m.stored == Some(c)
    ensures var m' := Reconciled(s, m, false, None);
            && m'.lastSig == m'.appliedSig == Some(c) && m'.config == c && m'.stored == m.stored
            && m'.storedGood == m.storedGood && m'.available && m'.bans == []
  {
    AppliedImplements(s, Revived(m, false), c, None);
  }

  /** A rollback to a configuration that the sanitizer changes into the one that
      is signed: what follows from RollbackSafe failing. */
  lemma UnsafeRollback(s: Site, m: State, c: Config)
    requires m.available && m.bans == [] && m.lastSig == m.appliedSig == Some(c)
    requires CleanTarget(s, m) == c && !SameChains(PlanFor(s, Target(m)), PlanFor(s, c))
    ensures var m' := Reverted(s, m, None);
            && m'.stored == Some(c) && ReconcileOk(s, m', false, None)
            && !Implements(Reconciled(s, m', false, None).table, PlanFor(s, c))
  {
    AppliedImplements(s, m, Target(m), None);
  }

  /** Apply, then reconcile: the state in which the watchdog finds the manager. */
  lemma AppliedAndSigned(m: State, fixed: Config)
    requires m.config == fixed.(rules := [LOCKOUT]) && fixed == Plain(Host(PROBE), [])
    requires m.available && m.bans == []
    ensures var m2 := Reconciled(BARE, SafeApplied(BARE, m, fixed, None), false, None);
            && m2.available && m2.bans == [] && m2.lastSig == m2.appliedSig == Some(fixed)
            && Target(m2) == fixed.(rules := [LOCKOUT])
  {
    LockoutIsDropped();
    ApplyOfStable(BARE, m, fixed);
    ReconcileSigns(BARE, SafeApplied(BARE, m, fixed, None), fixed);
  }

  /** Unsafe rollbacks happen, and reconcile does not notice. A rule that locks the
      new probe address out is in force, an apply removes it, management is found
      unreachable: the rollback programs the rule, stores the configuration without
      it, and the next reconcile reports success with the rule still in the kernel. */
  lemma UnsafeRollbackIsNotRepaired(m: State, fixed: Config)
    requires m.config == fixed.(rules := [LOCKOUT]) && fixed == Plain(Host(PROBE), [])
    requires m.available && m.bans == []
    ensures var m2 := Reconciled(BARE, SafeApplied(BARE, m, fixed, None), false, None);
            var m' := WatchdogFired(BARE, m2, false, None);
            && m'.stored == Some(fixed)
            && ReconcileOk(BARE, m', false, None)
            && !Implements(Reconciled(BARE, m', false, None).table, PlanFor(BARE, fixed))
  {
    AppliedAndSigned(m, fixed);
    RollbackToLockout(Reconciled(BARE, SafeApplied(BARE, m, fixed, None), false, None), fixed);
  }

  lemma RollbackToLockout(m: State, fixed: Config)
    requires m.available && m.bans == [] && m.lastSig == m.appliedSig == Some(fixed)
    requires fixed == Plain(Host(PROBE), []) && Target(m) == fixed.(rules := [LOCKOUT])
    ensures var m' := WatchdogFired(BARE, m, false, None);
            && m'.stored == Some(fixed) && ReconcileOk(BARE, m', false, None)
            && !Implements(Reconciled(BARE, m', false, None).table, PlanFor(BARE, fixed))
  {
    LockoutIsDropped();
    LockoutIsRendered();
    UnsafeRollback(BARE, m, fixed);
  }

  /** That starting point is reached from the factory settings: the configuration
      that brings its own probe address is accepted with the rule in it. */
  lemma LockoutIsAccepted(m: State, locked: Config)
    requires m.config == Plain(Blank, []) && m.available && m.bans == []
    requires locked == Plain(Host(PROBE), []).(rules := [LOCKOUT])
    ensures var m' := SafeApplied(BARE, m, locked, None);
            m'.config == locked && m'.available && m'.bans == []
  {
    assert [LOCKOUT][..0] == [] && CleanRules(BARE, Blank, []) == [];
    assert KeepsRule(BARE, Blank, LOCKOUT);
    assert CleanRules(BARE, Blank, [LOCKOUT]) == [LOCKOUT];
    ApplyOfStable(BARE, m, locked);
  }

  lemma LockoutIsDropped()
    ensures var fixed := Plain(Host(PROBE), []);
            && Sanitized(BARE, Host(PROBE), fixed) == fixed
            && Sanitized(BARE, Host(PROBE), fixed.(rules := [LOCKOUT])) == fixed
  {
    BlockHoldsProbe();
    assert Host(PROBE) in [Host(PROBE), Blank, Blank];
    assert IsProtected(BARE, Host(PROBE), PROBE_BLOCK);
    assert !KeepsRule(BARE, Host(PROBE), LOCKOUT);
    assert [LOCKOUT][..0] == [];
    assert CleanRules(BARE, Host(PROBE), []) == [];
    assert CleanRules(BARE, Host(PROBE), [LOCKOUT]) == [];
  }

  lemma LockoutIsRendered()
    ensures var fixed := Plain(Host(PROBE), []);
            InputRules(PlanFor(BARE, fixed.(rules := [LOCKOUT]))) != InputRules(PlanFor(BARE, fixed))
  {
    assert [LOCKOUT][..0] == [];
    assert CustomRules([], Input) == [];
    assert |CustomRules([LOCKOUT], Input)| == 1;
  }

  lemma BlockHoldsProbe()
    ensures CidrOf(PROBE_BLOCK).Some? && CidrOf(PROBE_BLOCK).value.Contains(PROBE)
  {
    assert Pow2(8) == 256;
  }

  /** `flush table` leaves set elements in place: a block that is taken off the
      deny list of a live table stays in the kernel. */
  lemma DroppedDenyStaysInKernel(s: Site)
    ensures var before := PlanFor(s, Plain(Blank, [PROBE_BLOCK]));
            var after := PlanFor(s, Plain(Blank, []));
            var t := Loaded(after, Loaded(before, Absent));
            Implements(t, after) && CidrOf(PROBE_BLOCK).value in t.Elements(Deny) && !ListsAgree(t, after)
  {
    var before := PlanFor(s, Plain(Blank, [PROBE_BLOCK]));
    var after := PlanFor(s, Plain(Blank, []));
    var n := CidrOf(PROBE_BLOCK).value;
    assert [PROBE_BLOCK][..0] == [];
    assert ValidNets([PROBE_BLOCK]) == ValidNets([]) + [n];
    LoadedElements(before, Absent);
    LoadedElements(after, Loaded(before, Absent));
    LoadedImplements(after, Loaded(before, Absent));
    assert n in ValidNets([PROBE_BLOCK]) && n !in ValidNets([]);
  }
}
