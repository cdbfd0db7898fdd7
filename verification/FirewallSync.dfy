/** Runs in which nft works and nothing outside touches the ruleset: at every
    moment the stored configuration and the programmed ruleset agree. */
module FirewallSync {
  import opened Ipv4
  import opened Nft
  import opened FirewallConfig
  import opened FirewallRender
  import opened FirewallLoad
  import opened FirewallSanitize
  import opened FirewallManager
  import opened FirewallRuns
  import opened Options

  /** nft is there and the live bans have a set to go to. */
  predicate Ready(m: State) {
    m.available && m.table.Table? && (m.bans == [] || Bans in m.table.sets)
  }

  /** A step without nft failures and without an outside flush. Bans come once the
      ban set is there. */
  predicate Smooth(m: State, e: Event) {
    match e
    case SafeApply(_, fault) => fault == None
    case Watchdog(_, fault) => fault == None
    case Revert(fault) => fault == None
    case Reconcile(_, fault) => fault == None
    case RulesetFlushed => false
    case BanSet(bans) => bans == [] || (m.table.Table? && Bans in m.table.sets)
  }

  lemma AppliedStaysReady(s: Site, m: State, c: Config)
    requires Ready(m)
    ensures var m' := Applied(s, m, c, None);
            && Ready(m') && m' == m.(config := c, table := m'.table)
            && Implements(m'.table, PlanFor(s, c))
  {
    AppliedImplements(s, m, c, None);
    LoadedKeepsBanSet(PlanFor(s, c), m.table);
  }

  lemma StepStaysReady(s: Site, m: State, e: Event)
    requires Ready(m) && Smooth(m, e)
    ensures Ready(Next(s, m, e))
  {
    match e
    case SafeApply(data, _) => AppliedStaysReady(s, Persisted(s, m, data), Persisted(s, m, data).config);
    case Watchdog(_, _) => AppliedStaysReady(s, m, Target(m));
    case Revert(_) => AppliedStaysReady(s, m, Target(m));
    case Reconcile(retry, _) => AppliedStaysReady(s, Revived(m, retry), Master(m));
    case BanSet(_) =>
  }

  lemma RevertSyncs(s: Site, m: State)
    requires Ready(m)
    ensures InSync(s, Reverted(s, m, None)) <==> SameChains(PlanFor(s, Target(m)), PlanFor(s, CleanTarget(s, m)))
  {
    AppliedStaysReady(s, m, Target(m));
  }

  /** One smooth step: the agreement is kept if and only if the step is not a
      rollback whose target and sanitized target render to different chains. */
  lemma StepSyncs(s: Site, m: State, e: Event)
    requires Ready(m) && InSync(s, m) && Smooth(m, e)
    ensures InSync(s, Next(s, m, e)) <==>
            (RollsBack(e) ==> SameChains(PlanFor(s, Target(m)), PlanFor(s, CleanTarget(s, m))))
  {
    match e
    case SafeApply(data, _) => AppliedStaysReady(s, Persisted(s, m, data), Persisted(s, m, data).config);
    case Watchdog(_, _) => RevertSyncs(s, m);
    case Revert(_) => RevertSyncs(s, m);
    case Reconcile(retry, _) => AppliedStaysReady(s, Revived(m, retry), Master(m));
    case BanSet(_) =>
  }

  // ---- Every run ---------------------------------------------------------------------------

  predicate SmoothRun(s: Site, m: State, es: seq<Event>) {
    es != [] ==>
      var l := |es| - 1;
      SmoothRun(s, m, es[..l]) && Smooth(After(s, m, es[..l]), es[l])
  }

  /** Every rollback of the run renders its target and the sanitized one alike. */
  predicate FaithfulRollbacks(s: Site, m: State, es: seq<Event>) {
    es != [] ==>
      var l := |es| - 1;
      var before := After(s, m, es[..l]);
      && FaithfulRollbacks(s, m, es[..l])
      && (RollsBack(es[l]) ==> SameChains(PlanFor(s, Target(before)), PlanFor(s, CleanTarget(s, before))))
  }

  lemma {:induction false} RunStaysInSync(s: Site, m: State, es: seq<Event>)
    requires Ready(m) && InSync(s, m) && SmoothRun(s, m, es) && FaithfulRollbacks(s, m, es)
    ensures Ready(After(s, m, es)) && InSync(s, After(s, m, es))
  {
    if es != [] {
      var l := |es| - 1;
      RunStaysInSync(s, m, es[..l]);
      StepStaysReady(s, After(s, m, es[..l]), es[l]);
      StepSyncs(s, After(s, m, es[..l]), es[l]);
    }
  }

  lemma {:induction false} OneProbeIsFaithful(s: Site, probe: AddrText, m: State, es: seq<Event>)
    requires AllClean(s, probe, m) && forall e <- es :: KeepsProbe(s, probe, e)
    ensures AllClean(s, probe, After(s, m, es)) && FaithfulRollbacks(s, m, es)
  {
    if es != [] {
      var l := |es| - 1;
      OneProbeIsFaithful(s, probe, m, es[..l]);
      StepKeepsClean(s, probe, After(s, m, es[..l]), es[l]);
      TargetIsClean(s, probe, After(s, m, es[..l]));
    }
  }

  /** Over every run of applies, watchdog verdicts, rollbacks and reconciles in which
      nft succeeds and the effective probe address stays the same, the stored
      configuration, the one in force and the programmed chains are one. */
  lemma EveryRunStaysInSync(s: Site, probe: AddrText, m: State, es: seq<Event>)
    requires Ready(m) && InSync(s, m) && AllClean(s, probe, m)
    requires SmoothRun(s, m, es) && forall e <- es :: KeepsProbe(s, probe, e)
    ensures InSync(s, After(s, m, es))
  {
    OneProbeIsFaithful(s, probe, m, es);
    RunStaysInSync(s, m, es);
  }

  // ---- The deny and allow lists over a run ---------------------------------------------------

  predicate IsList(n: SetName) { n == Deny || n == Allow }

  /** The list that a configuration asks for. */
  function Listed(c: Config, n: SetName): set<Cidr> {
    if !c.enabled then {}
    else if n == Deny then NetSet(ValidNets(c.denyCidrs))
    else if n == Allow then NetSet(ValidNets(c.allowCidrs))
    else {}
  }

  predicate NoFault(e: Event) {
    FaultOf(e) == None
  }

  /** The configuration that a step sends to the kernel, if it sends one. */
  function ProgrammedBy(s: Site, m: State, e: Event): Option<Config> {
    match e
    case SafeApply(data, _) => if m.available then Some(Persisted(s, m, data).config) else None
    case Watchdog(reachable, _) => if !reachable && m.available then Some(Target(m)) else None
    case Revert(_) => if m.available then Some(Target(m)) else None
    case Reconcile(retry, _) =>
      var m0 := Revived(m, retry);
      if m0.available && NeedsApply(m0) then Some(Master(m)) else None
    case _ => None
  }

  function Added(c: Option<Config>, n: SetName): set<Cidr> {
    if c.Some? then Listed(c.value, n) else {}
  }

  /** Everything that was put on a list since the table was last removed. */
  function Accumulated(s: Site, m: State, es: seq<Event>, n: SetName): set<Cidr> {
    if es == [] then m.table.Elements(n)
    else
      var l := |es| - 1;
      if es[l].RulesetFlushed? then {}
      else Accumulated(s, m, es[..l], n) + Added(ProgrammedBy(s, After(s, m, es[..l]), es[l]), n)
  }

  lemma DeclaredElements(t: Table, n: SetName)
    ensures Declared(t).Elements(n) == t.Elements(n)
  {
  }

  lemma AppliedElements(s: Site, m: State, c: Config, n: SetName)
    requires m.available && IsList(n)
    ensures Applied(s, m, c, None).table.Elements(n) == m.table.Elements(n) + Listed(c, n)
  {
    var p := PlanFor(s, c);
    if c.enabled {
      LoadedElements(p, m.table);
    } else {
      DeclaredElements(m.table, n);
    }
    assert WithBans(m.bans, Loaded(p, m.table)).Elements(n) == Loaded(p, m.table).Elements(n);
  }

  lemma StepElements(s: Site, m: State, e: Event, n: SetName)
    requires NoFault(e) && IsList(n)
    ensures Next(s, m, e).table.Elements(n) ==
            if e.RulesetFlushed? then {} else m.table.Elements(n) + Added(ProgrammedBy(s, m, e), n)
  {
    match e
    case SafeApply(data, _) =>
      if m.available {
        AppliedElements(s, Persisted(s, m, data), Persisted(s, m, data).config, n);
      }
    case Watchdog(_, _) =>
      if m.available {
        AppliedElements(s, m, Target(m), n);
      }
    case Revert(_) =>
      if m.available {
        AppliedElements(s, m, Target(m), n);
      }
    case Reconcile(retry, _) =>
      if Revived(m, retry).available {
        AppliedElements(s, Revived(m, retry), Master(m), n);
      }
    case _ =>
  }

  /** In any run without nft failures the kernel's lists are what was accumulated. */
  lemma {:induction false} ListsAccumulate(s: Site, m: State, es: seq<Event>, n: SetName)
    requires (forall e <- es :: NoFault(e)) && IsList(n)
    ensures After(s, m, es).table.Elements(n) == Accumulated(s, m, es, n)
  {
    if es != [] {
      var l := |es| - 1;
      ListsAccumulate(s, m, es[..l], n);
      StepElements(s, After(s, m, es[..l]), es[l], n);
    }
  }

  predicate Covers(m: State, n: SetName) {
    Listed(m.config, n) <= m.table.Elements(n)
  }

  lemma StepCovers(s: Site, probe: AddrText, m: State, e: Event, n: SetName)
    requires Ready(m) && InSync(s, m) && AllClean(s, probe, m) && Covers(m, n) && IsList(n)
    requires Smooth(m, e) && KeepsProbe(s, probe, e)
    ensures Covers(Next(s, m, e), n)
  {
    StepElements(s, m, e, n);
    match e
    case SafeApply(data, _) => AppliedStaysReady(s, Persisted(s, m, data), Persisted(s, m, data).config);
    case Watchdog(_, _) => RevertKeepsClean(s, probe, m, None);
    case Revert(_) => RevertKeepsClean(s, probe, m, None);
    case Reconcile(retry, _) => ReconcileKeepsConfig(s, m, retry);
    case BanSet(_) =>
  }

  lemma ReconcileKeepsConfig(s: Site, m: State, retry: bool)
    requires Ready(m) && InSync(s, m)
    ensures Reconciled(s, m, retry, None).config == m.config
  {
    AppliedStaysReady(s, Revived(m, retry), Master(m));
  }

  lemma {:induction false} RunCovers(s: Site, probe: AddrText, m: State, es: seq<Event>, n: SetName)
    requires Ready(m) && InSync(s, m) && AllClean(s, probe, m) && Covers(m, n) && IsList(n)
    requires SmoothRun(s, m, es) && forall e <- es :: KeepsProbe(s, probe, e)
    ensures Covers(After(s, m, es), n)
  {
    if es != [] {
      var l := |es| - 1;
      RunCovers(s, probe, m, es[..l], n);
      OneProbeIsFaithful(s, probe, m, es[..l]);
      RunStaysInSync(s, m, es[..l]);
      StepCovers(s, probe, After(s, m, es[..l]), es[l], n);
    }
  }

  lemma {:induction false} SmoothHasNoFault(s: Site, m: State, es: seq<Event>)
    requires SmoothRun(s, m, es)
    ensures forall e <- es :: NoFault(e)
  {
    if es != [] {
      var l := |es| - 1;
      SmoothHasNoFault(s, m, es[..l]);
      assert forall e :: e in es <==> e in es[..l] || e == es[l];
    }
  }

  /** After such a run the kernel's deny and allow lists are those of the stored
      configuration if and only if nothing was ever put on them that is not in it. */
  lemma ListsAgreeAfterRun(s: Site, probe: AddrText, m: State, es: seq<Event>)
    requires Ready(m) && InSync(s, m) && AllClean(s, probe, m) && Covers(m, Deny) && Covers(m, Allow)
    requires SmoothRun(s, m, es) && forall e <- es :: KeepsProbe(s, probe, e)
    ensures var m' := After(s, m, es);
            ListsAgree(m'.table, PlanFor(s, m'.config)) <==>
            (m'.config.enabled ==>
               && Accumulated(s, m, es, Deny) <= Listed(m'.config, Deny)
               && Accumulated(s, m, es, Allow) <= Listed(m'.config, Allow))
  {
    SmoothHasNoFault(s, m, es);
    ListsAccumulate(s, m, es, Deny);
    ListsAccumulate(s, m, es, Allow);
    RunCovers(s, probe, m, es, Deny);
    RunCovers(s, probe, m, es, Allow);
  }
}
