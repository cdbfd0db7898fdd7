# QuotaManager, modelled and verified in Dafny

QuotaManager turns a small box into a home gateway: it splits a monthly
allowance among people, blocks and redirects domains, firewalls the house,
relays files between devices and counts every byte. This project models the
parts of it whose promises are easy to state and hard to be sure of, and proves
them for every input, every packet, every run of days and every interleaving.

Verify everything with `dafny verify dfyconfig.toml`.

## What is modelled

- **Firewall compiler** (`Ipv4`, `Nft`, `FirewallConfig`, `FirewallRender`,
  `FirewallPolicy`, `FirewallLoad`, `FirewallJudge`). Chains, sets, counters and
  packets of nftables; the renderer as loops that append rules; a declarative
  policy; the proof that first-match evaluation of the rendered chains is that
  policy, that the commands never meet an undeclared name, and that the nat and
  filter chains agree.
- **Firewall manager** (`FirewallSanitize`, `FirewallManager`, `FirewallRuns`,
  `FirewallSync`). The sanitizer and an object whose methods take the steps
  persist, apply, watchdog, revert and reconcile. What every run of those steps
  keeps with nft failures and outside flushes at any point, and, while nft works,
  that the stored configuration and the programmed chains agree in every state.
- **DNS rules** (`StableSort`, `DnsRules`, `DnsAgreement`). The dnsmasq file
  writer and the independent resolver, and the proof that they agree.
- **Daily planner** (`DailyPlan`, `DailyRuns`, `DailyPreview`, `DeviceCaps`).
  Caps over whole runs of days, reservation of heavy days, the preview, and the
  caps of the single devices.
- **Log tailer** (`Lines`, `Dnslog`, `DnslogRuns`). Reading in passes, over rotations
  and truncations, against splitting once.
- **Calendar** (`Calendar`). Quota periods with clamped reset days.
- **Throttles** (`SlidingWindow`, `LoginLimiter`, `Waf`). Guess rates and request
  rates.
- **Byte accounting** (`Flows`, `Usage`). Telescoping counters, calibration and
  conservation.
- **Live relay** (`LiveShare`, `LiveShareRuns`, `LiveStream`). The hub's header
  cache, and the download as an interleaving of two tasks at their await points.
- **ARP codec** (`Arp`). Frames of the "Packet format" section of RFC 826.

`Options` and `Collections` hold what several of them share.

## Where the code and its documentation part

The model follows the code. Each point is a lemma: the exact condition under which
the code does what is promised, or, where it never does, the fact itself. Further
names add a concrete input or a consequence.

- Country blocking never reaches the ruleset and the dashboard port is always
  8080 in it: `_merge_defaults` drops both injected entries
  (`FirewallPolicy.GeoIsInert`).
- `flush table` keeps set elements, so a block that leaves the deny or allow list
  stays in the kernel until the table is removed (`FirewallLoad.StaleElements`,
  `FirewallRuns.DroppedDenyStaysInKernel`).
- The sanitizer protects the probe address of the configuration in force, not of
  the one that arrives; after an unreachable verdict the chains go back to the
  previous configuration in every case, the stored settings only if that
  configuration is stable under its own probe address
  (`FirewallRuns.UnreachableRestoresPrevious`, `FirewallRuns.OwnProbeIsNotProtected`).
- For the same reason a rollback can program a rule that the stored configuration
  does not have, and reconcile then reports success with it in the kernel
  (`FirewallRuns.StepSettles`, `FirewallRuns.UnsafeRollbackIsNotRepaired`).
- The lockout test looks at a rule's destination port before the port is read. A
  deny rule with a port like "any" passes it, is kept without a port, and goes in
  the second pass (`FirewallSanitize.RulesKeepNoLockout`,
  `FirewallSanitize.SanitizeIsIdempotent`, `FirewallSanitize.BlindPortIsKept`).
- A deny rule with a port but neither tcp nor udp passes the lockout test and then
  denies every port (`FirewallJudge.KeptDenyCoversProtected`,
  `FirewallJudge.PortWithoutProtocolIsUnscoped`).
- The resolver does not make the renderer's safety checks: it names the deciding
  rule exactly when its winner passes them (`DnsAgreement.WinnerIsRendered`,
  `DnsAgreement.BlankRedirectDisagrees`). Redirects to 0.0.0.0 and unknown actions
  are reported differently from what the file does (`DnsAgreement.StatusAgrees`).
- The next reset is not after now on the last day of a month that is shorter than
  the reset day (`Calendar.NowIsInsidePeriod`, `Calendar.EndStartsNextPeriod`).
- A calibrated total misses its target by what is recorded for later days
  (`Usage.Database.SetDevicePeriodUsage`, `Usage.CalibrationIsExact`).
- A header padded with NULs gets a cache entry that survives its transfer
  (`LiveShareRuns.AliasBreaksAgreement`, `LiveShareRuns.NulPaddedHeaderOutlivesTransfer`).
- The hub accepts a request of a peer that it has dropped while that peer's socket
  is still read; the transfer then has an end that is not connected
  (`LiveShareRuns.StepKeeps`, `LiveShareRuns.DroppedSenderIsRegistered`).
- The end marker waits for room in the queue with the hub's lock in hand. When the
  receiver leaves a full queue, or when the sender is done with one before the
  download request has come, which needs the lock itself, the lock is held for good
  (`LiveStream.LockIsReleasedUnlessStuck`, `LiveStream.AbortWithFullQueueIsStuck`,
  `LiveStream.DoneWithFullQueueDeadlocks`, `LiveStream.UnreadFullQueueDeadlocks`).
- The limiter's text says that a success resets every bucket; it resets the two
  keys and leaves the global breaker alone, so that one wrong password can lock
  everybody out (`LoginLimiter.SuccessLeavesTheBreaker`,
  `LoginLimiter.ThrottledRightAfterSuccess`).
- A cursor that is persisted before there was a log makes the next start read the
  whole log, which a first start is meant to leave alone
  (`Dnslog.EmptySnapshotRereads`).

## Model

| member | source | states |
|---|---|---|
| Ipv4.NetOfWellFormed | quota/firewall.py:101-106 | Clearing the host bits of any address with any prefix length gives an aligned block inside the address space that contains the address. |
| Ipv4.NestedOrDisjoint | quota/firewall.py:788-795 | The two `subnet_of` tests together hold exactly when the blocks share an address: CIDR blocks are nested or disjoint. |
| Nft.VerdictAppend | quota/firewall.py:358-359 | First match over appended rules: the earlier rules decide if any of them ends the chain, otherwise the later ones do. |
| Nft.VerdictOfUniform | quota/firewall.py:358-359 | A run of rules with one action decides exactly when one of them fires. |
| FirewallConfig.CidrOfWellFormed | quota/firewall.py:101-106 | Every text that `_cidr` accepts stands for a proper block. |
| FirewallConfig.EverywhereContains | quota/firewall.py:442-442 | The fallback source 0.0.0.0/0 of a service contains every address. |
| FirewallRender.RenderCustom | quota/firewall.py:449-452 | The loop over custom rules emits exactly the rules of one chain, in order, each numbered by its position in the whole list. |
| FirewallRender.RenderInput | quota/firewall.py:414-482 | The loops of the input section build the specified rule list. |
| FirewallRender.RenderForward | quota/firewall.py:484-539 | The loops of the forward section build the specified rule list. |
| FirewallRender.RenderPrerouting | quota/firewall.py:541-561 | The loop of the nat section builds the specified rule list, and nothing in LAN mode. |
| FirewallRender.CollectCounters | quota/firewall.py:391-412 | The counter names collected are the specified set. |
| FirewallRender.RenderCommands | quota/firewall.py:314-562 | The method that renders everything issues the specified command list, in order; only the table is added and flushed when the firewall is off. |
| FirewallPolicy.ServiceRuleFires | quota/firewall.py:440-447 | A rendered service rule fires exactly on the packets that the service admits by protocol, source and port. |
| FirewallPolicy.CustomRuleFires | quota/firewall.py:565-585 | A rendered custom rule fires exactly on the packets its fields describe; a port counts only with tcp or udp. |
| FirewallPolicy.CustomRulesDecide | quota/firewall.py:448-452 | Over the whole list the first rule of the chain that matches decides, and its action is the verdict. |
| FirewallPolicy.ForwardRulesDecide | quota/firewall.py:502-516 | Forward rules accept exactly the packets that some complete forward admits. |
| FirewallPolicy.GeoIsInert | quota/firewall.py:272-274 | After the defaults are merged the renderer sees no country blocks and the dashboard port 8080, whatever was injected. |
| FirewallPolicy.InputChainMeansPolicy | quota/firewall.py:414-482 | For every configuration, topology, network list, packet and set contents, first-match evaluation of `fw_input` accepts exactly what the input policy admits. |
| FirewallPolicy.ForwardChainMeansPolicy | quota/firewall.py:484-539 | The same for `fw_forward` and the forward policy. |
| FirewallPolicy.LocalSourcesAlwaysAccepted | quota/firewall.py:421-422 | A packet from a local network is accepted by both chains, whatever the deny list, the bans and the custom rules say. |
| FirewallPolicy.NewFromInternet | quota/firewall.py:453-466 | In WAN mode a new connection on ppp0 from outside passes exactly when it survives the deny list and one of the listed clauses admits it before a custom deny or a ban. |
| FirewallPolicy.DnatRulesDecide | quota/firewall.py:541-556 | Whatever the nat rules rewrite, a complete forward asked for. |
| FirewallPolicy.RewrittenIsForwarded | quota/firewall.py:502-561 | A new outside packet that the nat chain rewrites is then accepted by `fw_forward` unless the deny list, or a custom deny when it is not on the allow list, hits it first. |
| FirewallLoad.InputCounted | quota/firewall.py:386-412 | Every counter that an input rule names is among the declared ones. |
| FirewallLoad.ForwardCounted | quota/firewall.py:386-412 | The same for the forward and the nat rules. |
| FirewallLoad.RenderedLoads | quota/firewall.py:386-412 | Whatever table the kernel holds, every rendered command succeeds: each chain, set and counter a rule names was added before; the chains then hold the rendered rules and nothing else. |
| FirewallLoad.LoadedImplements | quota/firewall.py:343-363 | The loaded table implements its plan, in both topologies and switched off. |
| FirewallLoad.StaleElements | quota/firewall.py:365-373 | After a reload the kernel's deny and allow sets are the configured lists if and only if every element that was already there is configured too. |
| FirewallJudge.LoadedTableJudgesByPolicy | quota/firewall.py:314-562 | Compiling, loading and judging together: the table that results from any earlier table judges every packet by the policy. |
| FirewallJudge.FreshTableHasTheLists | quota/firewall.py:365-373 | On a table that was absent, an address is in the deny (allow) set exactly when the configuration lists it, and nobody is banned. |
| FirewallJudge.KeptDenyCoversProtected | quota/firewall.py:841-866 | A deny rule that the sanitizer keeps cuts off a protected address (probe, gateway, router or any address of the client network) altogether if and only if it names neither tcp nor udp and has no real destination. |
| FirewallJudge.PortWithoutProtocolIsUnscoped | quota/firewall.py:290-297 | Such a rule exists: deny port 80 with the protocol left empty. |
| FirewallJudge.SanitizedEntriesAreExact | quota/firewall.py:887-923 | A sanitized service opens one port of one protocol to its source, a sanitized forward one port of one host, and no more. |
| FirewallSanitize.Sanitize | quota/firewall.py:770-940 | The loops of the sanitizer build the specified configuration; there is one warning for each dropped deny entry and rule. |
| FirewallSanitize.SanitizeExposed | quota/firewall.py:887-923 | The loops over services and forwards build the specified lists. |
| FirewallSanitize.ProtectedIsHarmful | quota/firewall.py:786-801 | An entry counts as protected exactly when it shares an address with the client network or contains the probe, gateway or router. |
| FirewallSanitize.DenyKeepsTheHarmless | quota/firewall.py:803-810 | The deny list that is kept is exactly the harmless part of the one given. |
| FirewallSanitize.RulesKept | quota/firewall.py:816-885 | The rules that are kept are exactly the normal forms of those that pass the tests of `clean_rule`. |
| FirewallSanitize.RulesKeepNoLockout | quota/firewall.py:841-874 | No kept rule locks the administrator out if and only if no kept deny rule that hits the administrator without a destination has a port that is set and reads as 0. |
| FirewallSanitize.BlindPortIsKept | quota/firewall.py:853-874 | Such a rule, with the port "any", is kept as a deny of everything; the second pass drops it. |
| FirewallSanitize.ServicesKept | quota/firewall.py:889-904 | Exactly the services with a port in range and tcp or udp are kept. |
| FirewallSanitize.ForwardsKept | quota/firewall.py:906-923 | Exactly the complete forwards with tcp or udp are kept. |
| FirewallSanitize.SanitizeIsIdempotent | quota/firewall.py:770-940 | Sanitizing a second time changes nothing, under the same exact condition. |
| FirewallSanitize.TwoPassesAreEnough | quota/firewall.py:770-940 | The second pass is always the last that changes anything. |
| FirewallManager.Manager.constructor | quota/firewall.py:602-659 | A new manager is available, has no signature and no bans, and takes over the stored settings. |
| FirewallManager.Manager.Apply | quota/firewall.py:991-1025 | A refused, an interrupted and a complete apply, with the state each leaves. |
| FirewallManager.Manager.ProgramConfig | quota/firewall.py:1003-1013 | Without a failure the kernel holds the rendered ruleset; with one it holds what the commands before it made. |
| FirewallManager.Manager.Program | quota/firewall.py:695-706 | The nft calls run one after the other up to the first that fails, which switches the manager off. |
| FirewallManager.Manager.ReseedBans | quota/firewall.py:1147-1158 | All live bans are back in the ban set, or the manager is off because there is no such set. |
| FirewallManager.Manager.Persist | quota/firewall.py:759-768 | The sanitized configuration becomes both the stored one and the one in force. |
| FirewallManager.Manager.SafeApply | quota/firewall.py:1027-1075 | The rollback target is the configuration in force before, recorded only after a successful apply of an enabled configuration. |
| FirewallManager.Manager.RevertLastGood | quota/firewall.py:1077-1099 | The last good configuration is applied, switched on, and then persisted. |
| FirewallManager.Manager.Watchdog | quota/firewall.py:1103-1114 | An unreachable verdict reverts; a reachable one changes nothing. |
| FirewallManager.Manager.Revive | quota/firewall.py:948-966 | The stored setting becomes the master and an overdue retry clears the signatures. |
| FirewallManager.Manager.Reconcile | quota/firewall.py:948-989 | The signature compare, the missing-table check, the apply and the signatures afterwards. |
| FirewallManager.OneMore | quota/firewall.py:1007-1013 | A prefix of a command list that runs through, extended by its next command, runs through. |
| FirewallRuns.SafeApplySyncs | quota/firewall.py:1027-1075 | After a successful apply the database, the manager and the kernel hold one configuration. |
| FirewallRuns.RevertKeepsClean | quota/firewall.py:1077-1099 | A rollback keeps every configuration that could come back free of lockouts. |
| FirewallRuns.RevertSettles | quota/firewall.py:1077-1099 | A rollback leaves the signatures trustworthy if and only if nft does not carry it out, or its target and the sanitized target render alike, or the signature is not that of the latter. |
| FirewallRuns.StepSettles | quota/firewall.py:948-1114 | Every step, with nft failures anywhere, keeps the invariant that whenever the signature compare finds nothing to do, nothing is to be done, if and only if it is not an unsafe rollback that nft carries out. |
| FirewallRuns.RunKeeps | quota/firewall.py:948-1114 | So does every run without unsafe rollbacks. |
| FirewallRuns.SuccessfulReconcileSyncs | quota/firewall.py:948-989 | After any such run, a reconcile that returns true leaves the chains equal to what the stored configuration renders to. |
| FirewallRuns.OneProbeIsSafe | quota/firewall.py:948-1114 | While the effective probe address stays the same and the first configurations are stable under it, every rollback of every run is safe. |
| FirewallRuns.UnsafeRollbackIsNotRepaired | quota/firewall.py:1086-1099 | An apply, a reconcile and an unreachable verdict can leave a lockout rule in the kernel that the stored configuration does not have, with every later signature compare satisfied. |
| FirewallRuns.LockoutIsAccepted | quota/firewall.py:783-784 | The configuration with that rule is accepted when it brings its own probe address. |
| FirewallRuns.FlushedRulesetIsRestored | quota/firewall.py:971-975 | After an outside flush it restores the chains and the exact allow and deny lists. |
| FirewallRuns.UnreachableRestoresPrevious | quota/firewall.py:1027-1114 | After an unreachable verdict the chains are those of the configuration in force just before the apply, switched on; the stored one is it too if and only if that configuration is stable under its own probe address. |
| FirewallRuns.OwnProbeIsNotProtected | quota/firewall.py:783-784 | A configuration that denies the network of its own probe address is accepted and not stable. |
| FirewallRuns.DroppedDenyStaysInKernel | quota/firewall.py:331-369 | A block taken off the deny list of a live table stays in the kernel's set: the commands flush the table and only ever add elements. |
| FirewallSync.StepSyncs | quota/firewall.py:948-1114 | With nft working, every step keeps database, manager and chains on one configuration if and only if it is not a rollback whose target the sanitizer changes in what it renders to. |
| FirewallSync.RunStaysInSync | quota/firewall.py:948-1114 | So does every run without such a rollback, in every state of it. |
| FirewallSync.EveryRunStaysInSync | quota/firewall.py:759-1114 | Over every run of applies, watchdog verdicts, rollbacks and reconciles in which nft succeeds and the effective probe address stays the same, the stored configuration, the one in force and the programmed chains are one, with live bans as well. |
| FirewallSync.ListsAccumulate | quota/firewall.py:331-369 | In any run without nft failures the kernel's deny and allow sets are the union of all lists programmed since the table was last removed. |
| FirewallSync.ListsAgreeAfterRun | quota/firewall.py:331-369 | They are the lists of the stored configuration if and only if nothing else was ever put on them. |
| StableSort.SortSorted | quota/dns_rules.py:532-538 | The insertion sort that stands for Python's stable sort sorts and permutes. |
| StableSort.FilterSort | quota/dns_rules.py:532-538 | Filtering commutes with the stable sort, so equal keys keep their order. |
| StableSort.LastOfSort | quota/dns_rules.py:634-639 | The last element after a stable sort is the last of the greatest keys. |
| StableSort.BestOfSort | quota/dns_rules.py:634-639 | Choosing by the first key after sorting by the second is choosing by both at once. |
| StableSort.BestOfFilter | quota/dns_rules.py:634-639 | Dropping elements leaves the last greatest one in place if and only if it is kept. |
| DnsRules.EmitForTags | quota/dns_rules.py:560-567 | One line for every tag, in order. |
| DnsRules.RenderRule | quota/dns_rules.py:540-567 | One rule's lines, or none for a disabled or unsafe rule. |
| DnsRules.RenderRules | quota/dns_rules.py:508-578 | The loops write the specified file: the sorted rules, then the upstream overrides. |
| DnsRules.RenderServers | quota/dns_rules.py:569-576 | The upstream overrides, with unsafe ones skipped. |
| DnsRules.ResolveDomainStatus | quota/dns_rules.py:581-643 | The winner is the last of the sorted candidates and the status is that of its action. |
| DnsRules.DeviceIdsByUser | run.py:1837-1840 | The lists that result name exactly the devices that each user owns. |
| DnsRules.ListedOwnerAgrees | run.py:1837-1840 | With unique device ids, these lists agree with the owner of every device. |
| DnsAgreement.FileFollowsRules | quota/dns_rules.py:540-567 | The line in effect comes from the best rule that renders and applies: longest domain, then latest. |
| DnsAgreement.LiveAnswerIsPredicted | quota/dns_rules.py:581-606 | For every rule table, override list, query and client, dnsmasq's answer is the one the resolver's winner stands for, among the rules that pass the renderer's safety checks. |
| DnsAgreement.WinnerIsRendered | quota/dns_rules.py:545-557 | The resolver's winner is the one among the rules that pass the renderer's safety checks if and only if it passes them itself. |
| DnsAgreement.StatusAgrees | quota/dns_rules.py:581-643 | Then the reported status is what the file does if and only if the winner has a known action and is not a redirect to 0.0.0.0. |
| DnsAgreement.BlankRedirectDisagrees | quota/dns_rules.py:552-557 | A redirect whose target is a blank, which an update of a rule stores unchecked, is skipped by the renderer and reported by the resolver. |
| DailyPlan.CollectFutureHeavy | quota/daily_plan.py:87-99 | The loop keeps exactly the heavy days from today to the period's end that ask for something. |
| DailyPlan.Round4Close | quota/daily_plan.py:132-132 | Rounding to four decimals moves a number by at most 0.00005 and keeps zero and sign. |
| DailyPlan.NeverOverspent | quota/daily_plan.py:102-132 | Over any run of days under any plans, usage within the caps exceeds the allowance by at most 0.00005 in all, or does not grow. |
| DailyPlan.ShareAndBankShrink | quota/daily_plan.py:115-131 | Share and bank together never grow with what was used already today. |
| DailyPlan.HeadroomNeverGrows | quota/daily_plan.py:102-132 | Recomputing a cap later in the day never raises the headroom, and the cap covers what is used while that fits the month. |
| DailyRuns.RunKeepsReserve | quota/daily_plan.py:118-131 | Every run within the caps keeps enough for all heavy days to come. |
| DailyRuns.HeavyDaysAreHonoured | quota/daily_plan.py:135-148 | Heavy days accepted by the validator get what was asked for after any run within the caps, short at most of the validator's tolerance, and of nothing when they fitted exactly. |
| DailyRuns.FullRunSpendsAll | quota/daily_plan.py:118-131 | A run to the end of the period that uses every cap leaves at most the tolerance. |
| DailyRuns.OverbookedSpendsAll | quota/daily_plan.py:118-131 | Heavy days that ask for all that is left, or for more, leave nothing at the end of a run that uses every cap. |
| DailyRuns.AllHeavyLeavesTheRest | quota/daily_plan.py:118-131 | When every day is heavy, such a run leaves exactly what they do not ask for. |
| DailyRuns.AllowanceIsUsedUp | quota/daily_plan.py:102-132 | From any plan, a run to the end of the period that uses every cap uses up the allowance to the last bit if and only if the days are not all heavy with gigabytes left over. |
| DailyRuns.AcceptedIsUsedUp | quota/daily_plan.py:135-148 | From an accepted plan it leaves at most the validator's tolerance. |
| DailyPreview.SumHeavy | quota/daily_plan.py:123-123 | The running total over the heavy days is their sum, in whatever order they come. |
| DailyPreview.ComputeCap | quota/daily_plan.py:102-132 | The computation with its branches gives the cap the run theorems speak of. |
| DailyPreview.Preview | quota/daily_plan.py:172-202 | The rows are those of consecutive days from today, each with its rounded cap, and stop at the first day that ends the preview or at the limit. |
| DailyPreview.PreviewStaysInside | quota/daily_plan.py:172-202 | However long it runs, a preview never plans past the allowance by more than the rounding of one cap, unless today is past it already. |
| DeviceCaps.RoundedSum | quota/daily_plan.py:161-168 | Rounding every entry moves the sum by at most half a unit of the last decimal for each. |
| DeviceCaps.CapsAddUp | quota/daily_plan.py:151-169 | Under a proportional split, and under an equal split of a list without repetitions, the device caps add up to the person's cap, up to the rounding of each; in general an equal split adds up to one part for each different device. Unlisted devices get none. |
| Lines.SplitConcat | quota/dnslog.py:221-228 | Splitting a text in two parts and carrying the unfinished line over is splitting it once. |
| Lines.StripConcat | quota/dnslog.py:220-221 | Removing NULs commutes with reading in parts. |
| Dnslog.ExtendedIsSplit | quota/dnslog.py:213-228 | Lines so far and pending partial are the split of the bytes so far, before and after every chunk. |
| Dnslog.DnslogTailer.constructor | quota/dnslog.py:121-138 | A new tailer has no cursor and an empty queue. |
| Dnslog.DnslogTailer.Reposition | quota/dnslog.py:177-208 | Resume, first start, rotation and detected shrink each choose the documented starting point; only the last two drop the partial line. |
| Dnslog.DnslogTailer.ReadPass | quota/dnslog.py:175-239 | One pass moves the offset to the end of what it read and offers exactly the events of the new complete lines, once and in order. |
| Dnslog.DnslogTailer.Consume | quota/dnslog.py:213-239 | The same for the chunk alone, with the discarding of an oversized partial line. |
| Dnslog.DnslogTailer.Push | quota/dnslog.py:229-239 | The loop queues the longest prefix of the events that fits. |
| Dnslog.DnslogTailer.DrainEvents | quota/dnslog.py:243-250 | Draining returns the whole queue in order and empties it. |
| Dnslog.DnslogTailer.Offer | quota/dnslog.py:229-239 | The events of complete lines join the hand-out in order, as far as there is room. |
| Dnslog.DnslogTailer.StateSnapshot | quota/dnslog.py:252-254 | A tailer that resumes from the snapshot goes on exactly where this one stopped, at the end of a file that is shorter, and at 0 in another file. |
| Dnslog.EmptySnapshotRereads | quota/dnslog.py:178-195 | Without a cursor to save, it begins at 0 where a first start begins at the end: the two agree only on an empty log. |
| Dnslog.FittingIsSubsequence | quota/dnslog.py:234-239 | What is drained and queued stays an in-order subsequence of what was offered, and equals it while the queue never overflows. |
| Dnslog.GrowingFileKeepsHistory | quota/dnslog.py:213-216 | On a file that only grows, the bytes read are exactly those from the starting offset to the current end. |
| DnslogRuns.OneTurn | quota/dnslog.py:175-239 | One turn of the loop brings the tailer where the run goes: cursor, lines, partial, events offered and queued. |
| DnslogRuns.Loop | quota/dnslog.py:157-173 | After any turns, from any resume cursor, the tailer has offered exactly the events of the lines that the run gives out, in order, and queued the longest prefix of them that fits. |
| DnslogRuns.EveryRunIsRead | quota/dnslog.py:213-228 | The current stretch is its chunks read one after the other; while it fits the limit every line of it is given out. |
| DnslogRuns.EveryRunIsStretch | quota/dnslog.py:175-216 | Over appends, rotations and detected truncations, the chunks since the last restart are the file that is there now from the start of the stretch to the cursor. |
| DnslogRuns.StretchesBegin | quota/dnslog.py:177-208 | A stretch starts where the resume cursor or the end of the file says in the first turn, and at 0 after every restart. |
| DnslogRuns.RunIsOneSplit | quota/dnslog.py:175-239 | What was given out since the stretch began, and the partial, are the one-shot newline split of the NUL-stripped file between the start of the stretch and the cursor. |
| DnslogRuns.AppendOnlyRunIsOneSplit | quota/dnslog.py:175-239 | On a log that only grows there is one stretch, from the start of the tailer: everything ever given out is the one-shot split of it. |
| Dnslog.AnyCutIsOneSplit | quota/dnslog.py:213-228 | However a text is cut into passes that stay within the limit, lines and partial are its one-shot newline split. |
| Dnslog.CutsAgree | quota/dnslog.py:213-228 | Two ways of cutting one text give the same lines, partial and offsets. |
| Calendar.MonthsAreAdjacent | core/timeutil.py:43-46 | Each month starts the day after the one before ends, over year ends and leap years. |
| Calendar.NowIsInsidePeriod | core/timeutil.py:50-68 | A period never starts after now, and ends after now exactly when today is not the last day of a month shorter than the reset day. |
| Calendar.EndStartsNextPeriod | core/timeutil.py:34-68 | The end is the start of the next month's period; it opens a period of its own exactly when it was not clamped, and otherwise stays in the old one. |
| Calendar.CountdownInRange | core/timeutil.py:78-89 | The countdown is within 0..31, never clipped, and zero exactly on a short month's last day. |
| Calendar.CountdownDropsByOne | core/timeutil.py:78-89 | From one day to the next it drops by one exactly when the period stays the same, that is unless tomorrow is the reset day or today ends a short month. |
| Calendar.TomorrowIsNext | core/timeutil.py:43-46 | The day after a date has the next ordinal. |
| LoginLimiter.Limiter.Check | api/app.py:187-195 | The wait is that of the global breaker first and of the key otherwise. |
| LoginLimiter.Limiter.Fail | api/app.py:197-215 | A failure counts for its key and for the breaker, and arms both at their thresholds. |
| LoginLimiter.Limiter.ArmKey | api/app.py:199-209 | Free tier, doubling delay, cap and lockout step of one key. |
| LoginLimiter.Limiter.ArmBreaker | api/app.py:210-215 | The rolling window over all sources and its lockout. |
| LoginLimiter.Limiter.RecentFailures | api/app.py:211-212 | The pruned list holds exactly the failures inside the window, in order. |
| LoginLimiter.Limiter.Success | api/app.py:217-219 | A success forgets the key and nothing else. |
| LoginLimiter.Limiter.Login | api/app.py:3565-3609 | A throttled attempt is a failure that is never checked; a checked one succeeds or fails both keys. |
| LoginLimiter.SuccessLeavesTheBreaker | api/app.py:217-219 | After a success the breaker is clear if and only if it was before; after one wrong password more the next attempt is throttled if and only if the failures from before the success, still in the window, fill the breaker with it. |
| LoginLimiter.ThrottledRightAfterSuccess | api/app.py:210-219 | Such a state: 48 failures in the window. |
| LoginLimiter.AccountState | api/app.py:197-209 | After any run without a success the account key has counted every attempt, throttled or not, and waits from the last one. |
| LoginLimiter.NextAllowedNeverDecreases | api/app.py:197-209 | The account's next allowed time never goes back. |
| LoginLimiter.GuessesAreSpaced | api/app.py:3568-3580 | From any address, each attempt that reaches the password check is at least the delay of its rank after the one before. |
| LoginLimiter.ThirteenGuessesTake511Seconds | api/app.py:145-152 | The first 13 password checks span at least 511 seconds. |
| LoginLimiter.GuessRateIsBounded | api/app.py:145-152 | In any stretch of T seconds there are at most 13 + T/1800 password checks. |
| LoginLimiter.BreakerStopsEverySource | api/app.py:210-215 | Once the breaker trips no attempt from any address is processed for half an hour. |
| Waf.WafRateState.constructor | api/waf.py:176-179 | A new rate state is empty. |
| Waf.WafRateState.RateLimited | api/waf.py:181-194 | The first matching path prefix picks the bucket; it counts the request, starting a new window when the old one is over. |
| Waf.WafRateState.RegisterBlock | api/waf.py:196-199 | A block is appended for its address alone. |
| Waf.WafRateState.BlocksInWindow | api/waf.py:201-204 | The count and the list that is kept are the blocks inside the window. |
| SlidingWindow.WithinKeeps | api/waf.py:202-202 | The pruned list holds exactly the stamps inside the window. |
| SlidingWindow.PruningLosesNothing | api/waf.py:201-204 | Pruning early never changes a later count. |
| Waf.BudgetHolds | api/waf.py:189-194 | The bucket and its window bound what was admitted since any time. |
| Waf.TwiceTheLimit | api/waf.py:181-194 | Any interval as long as the window admits at most twice the maximum, for every request sequence in time order. |
| Waf.BucketsAreIndependent | api/waf.py:184-193 | In any mix of addresses and paths, a bucket is what its own requests made of it. |
| Waf.CountsAgree | api/waf.py:181-194 | In any mix, the requests that their buckets let through are those that the bucket alone would let through. |
| Waf.TwiceTheLimitInAnyMix | api/waf.py:181-194 | In any mix of addresses and paths, in any span as long as the window, at most twice the maximum of requests of one address get an answer other than "limited" from one limit. |
| Waf.OneBucketKeepsTheLimit | api/waf.py:181-194 | One window admits at most the maximum. |
| Flows.FlowSampler.constructor | quota/flows.py:397-403 | A new sampler has no memory and takes its next sample as a baseline. |
| Flows.FlowSampler.CreditAdds | quota/flows.py:437-440 | Crediting a flow changes one client-server entry, by its delta. |
| Flows.FlowSampler.Sample | quota/flows.py:414-443 | The table of a window holds for every client and server exactly the sum of the deltas of their remote flows. |
| Flows.LatestHolds | quota/flows.py:423-430 | The memory after a sample holds exactly the watched flows that were in it, with their counters. |
| Flows.SumsTelescope | quota/flows.py:430-436 | Deltas of a series of counters add up to the last counter and what restarts threw away, less the baseline. |
| Flows.DeltasTelescope | quota/flows.py:414-443 | The deltas reported for a flow over any samples, each with its own client filter, do so, with the first counter as baseline in the first sample and zero for a flow that was not there, or not watched, before. |
| Flows.SteadyDeltasTelescope | quota/flows.py:430-436 | With counters that never go down they are the last counter less the baseline. |
| Usage.Database.AddUsageBatch | quota/db.py:1421-1433 | The upserts of a batch, one after the other. |
| Usage.Database.SetUsage | quota/db.py:1476-1487 | One row is replaced, negative parts by zero. |
| Usage.Database.SumRows | quota/db.py:1506-1508 | The running total over the rows is their sum, in whatever order they come. |
| Usage.Database.SumSpan | quota/db.py:1502-1508 | The total of a device's rows in a date range. |
| Usage.Database.SetDevicePeriodUsage | quota/db.py:1489-1535 | In both branches the device's period total is the target, never below zero, plus what later days hold; today's parts keep the ratio; no other device, earlier period or later day changes. |
| Usage.CalibrationIsExact | quota/db.py:1491-1495 | In the table that a calibration leaves, the total is exactly the target if and only if later days hold nothing. |
| Usage.TodayReplaced | quota/db.py:1526-1535 | Replacing today's row splits the period total into earlier days, today and later days. |
| Usage.BatchAddsRecords | quota/db.py:1421-1433 | A batch adds to every row exactly the records that name it, also when several do. |
| Usage.UsageRecords | run.py:1471-1499 | The records of a tick sum to the bytes of all addresses that resolve to the device, plus the box's own unless it is cut. |
| Usage.DrainTick | run.py:1471-1502 | A tick adds exactly these bytes to today's rows and changes no other day. |
| Arp.MacRoundTrip | quota/arp_scan.py:55-64 | Writing a MAC that was read gives its normal form. |
| Arp.FrameFields | quota/arp_scan.py:67-83 | Every field of a frame is where the layout puts it, with any padding. |
| Arp.RequestRoundTrip | quota/arp_scan.py:97-108 | The request parser undoes the request builder and the reply parser refuses its frames. |
| Arp.ReplyRoundTrip | quota/arp_scan.py:86-94 | The reply parser undoes the reply builder and the request parser refuses its frames. |
| LiveShare.HeaderRoundTrip | quota/local_share.py:619-663 | Padding an id of up to 16 printable characters to a header and decoding the header gives the id back. |
| LiveShare.LiveShareHub.constructor | quota/local_share.py:524-536 | A new hub is empty. |
| LiveShare.LiveShareHub.RegisterPeer | quota/local_share.py:538-547 | A peer is added behind the others, or replaced in its place. |
| LiveShare.LiveShareHub.UnregisterPeer | quota/local_share.py:549-568 | A peer leaves and takes along every transfer it is an end of. |
| LiveShare.LiveShareHub.UnregisterAll | quota/local_share.py:556-568 | The loop removes the listed transfers from all tables, and no other. |
| LiveShare.LiveShareHub.RegisterTransfer | quota/local_share.py:610-623 | A transfer, its header and its byte count are entered. |
| LiveShare.LiveShareHub.UnregisterTransfer | quota/local_share.py:639-652 | One transfer leaves all tables. |
| LiveShare.LiveShareHub.GetOrCreateStreamQueue | quota/local_share.py:625-631 | A queue exists afterwards and nothing else changes. |
| LiveShare.FirstAtFinds | api/app.py:1378-1383 | The first peer at an address is one there and not the one asking; there is none only if nobody else is. |
| LiveShare.LiveShareHub.PeerAt | api/app.py:1378-1383 | The loop finds the earliest connected peer at the address, other than the one asking. |
| LiveShare.LiveShareHub.TransferRequest | api/app.py:1365-1413 | Size limit, target lookup by id and by address, refusal of the same device, and the registration. |
| LiveShare.LiveShareHub.RouteBinaryChunk | quota/local_share.py:654-718 | Cache hit, decoded header, count, queue, fallback and clean-up; true exactly when a route existed and its destination took the message. |
| LiveShareRuns.HeadersDiffer | quota/local_share.py:619-620 | Different ids have different headers. |
| LiveShareRuns.RegisterKeeps | quota/local_share.py:610-623 | A registration keeps the cache in agreement, and both ends connected if and only if both are at that moment. |
| LiveShareRuns.RoutedExactlyWhileActive | quota/local_share.py:654-670 | A message with an id's header is routed exactly while that transfer is active, to its own ends. |
| LiveShareRuns.StepKeeps | quota/local_share.py:549-718 | Every step keeps cache and transfers in agreement, whoever is connected; it keeps all endpoints connected if and only if it is not a request of, or for, a dropped peer. |
| LiveShareRuns.EveryRunAgrees | quota/local_share.py:549-718 | In every state of every run the header cache agrees with the active transfers. |
| LiveShareRuns.EndpointsStayConnected | quota/local_share.py:549-718 | Both endpoints of every active transfer are connected peers in every run whose requests are between connected peers. |
| LiveShareRuns.FirstLossIsARequest | api/app.py:1391-1408 | The first state in which that fails comes right after a request of, or for, a dropped peer, and after nothing else. |
| LiveShareRuns.DroppedSenderIsRegistered | api/app.py:1391-1402 | Such a run: two peers join, the sender is dropped, and its request is registered all the same. |
| LiveShareRuns.BytesAreCounted | quota/local_share.py:672-677 | In every run the byte count of an active transfer is the payload bytes sent with its header since it was registered. |
| LiveShareRuns.AliasBreaksAgreement | quota/local_share.py:662-670 | Noting a routed message keeps the agreement if and only if its header was cached before. |
| LiveShareRuns.NulPaddedHeaderOutlivesTransfer | quota/local_share.py:662-670 | A NUL-padded header is still routed after its transfer was unregistered. |
| LiveStream.StepKeepsAccount | api/app.py:1304-1316 | At every step the payloads routed are those yielded, queued, in hand and dropped, in that order. |
| LiveStream.StepKeepsOrder | quota/local_share.py:633-652 | Until something times out or someone leaves, the end marker stays behind all data. |
| LiveStream.RunKeeps | quota/local_share.py:625-702 | Every run keeps both. |
| LiveStream.DownloadIsPrefix | api/app.py:1304-1316 | At every reachable state the downloaded bytes are a prefix of those routed; they are all of them once the download ends with no timeout and nobody gone. |
| LiveStream.LockIsReleasedUnlessStuck | quota/local_share.py:625-637 | In every run, a lock that is held can still be released if and only if its holder does not wait for room in a full queue whose reader has left, is the holder, or has yet to take the lock to get the queue. |
| LiveStream.StuckForever | quota/local_share.py:633-637 | Once it does, no continuation releases it. |
| LiveStream.AbortWithFullQueueIsStuck | api/app.py:1313-1316 | 32 chunks and an aborted download lead there. |
| LiveStream.DoneWithFullQueueDeadlocks | api/app.py:1480-1486 | So do 32 chunks, transfer-done and an aborted download, after which no event is possible at all. |
| LiveStream.UnreadFullQueueDeadlocks | api/app.py:1304-1304 | So do 32 chunks and transfer-done before the download request: in a run without timeout or departure nothing is possible any more, and the download stays empty. |

## Left out

- Subprocesses, sockets, files, SQL and HTTP: the kernel is a table, the log a text, the clock a parameter; an nft failure is a parameter that says at which command it happens.
- Texts of addresses: a field stands for what `ipaddress` reads in it. IPv6 texts, netmask spellings of a prefix length and rule names are not modelled.
- Texts of ports: except for a rule's destination port, a field stands for the number read in it, 0 when there is none. A seed configuration with an unreadable port, for which rendering fails before nft is called, is not modelled.
- FirewallRender.RenderCommands: local networks are sorted by number where the source sorts their texts, and the run of commands that adds the counters is one node.
- FirewallLoad.RenderedLoads: does not model the errors nft has for overlapping interval elements and for a dnat to a port without a transport protocol.
- Packet marks, interfaces by index, set timeouts and the token arithmetic of `limit`, which is an oracle.
- A manager without a database, the mirror file of its configuration, ruleset snapshots, the topology override and a change of topology.
- Two manager calls that overlap at their await points; each call is one step.
- FirewallManager.Manager.Watchdog: the verdict is a parameter; the text search of the default self-audit is not modelled.
- `scan_detect_tick`, `ban_ip`, counter draining and the event log: bans are a list that changes freely, and the ban set of the policy is arbitrary.
- The country database and its cache, which the renderer never sees.
- DnsRules.RenderRules: tags are device ids and the two-part sort key is one number with the same order.
- `render_tags`, presets, blocklist sources and the reload of dnsmasq.
- Heavy-day keys that spell one date in two ways or are no date; the daily freeze of caps in the service.
- DailyPlan.NeverOverspent: gigabytes are real numbers, so the error of binary floating point is not modelled.
- DailyRuns.AllowanceIsUsedUp: speaks of exact caps, before the rounding of `plan_day`, as its promise is about exact arithmetic.
- Time zones, and years outside those of Python's dates; the window of a reset day that is not positive.
- Dnslog.DnslogTailer.ReadPass: bytes are one-byte characters, so invalid UTF-8 is not modelled; nothing is drained while a pass runs; event times and the cache of answers are not kept.
- DnslogRuns.RunIsOneSplit: a log that is cut short and has grown back to at least its old size between two turns is not modelled, nor is the partial line that a restart of the program loses.
- Password hashing, the second factor, the kernel ban and the audit record in `login`; attempts are handled one at a time.
- WAF patterns, exemptions and the choice of mode.
- `top_destinations`, labels of remote hosts and the window length; which hosts are remote is a parameter.
- The other tables of the database, and `get_usage_before_and_on`; the downstream part of a calibration is the exact floor of 85 hundredths.
- LAN byte counters and everything else the maintenance tick does.
- Dotted-decimal texts in the ARP codec, which are four octets here, and malformed MACs.
- LiveShare.LiveShareHub.RouteBinaryChunk: one step, where the source waits up to 30 seconds for the queue; that wait is the subject of `LiveStream`.
- Messages of the relay that change no state of the hub, transfer metadata and progress reports.
- LiveStream.LockIsReleasedUnlessStuck: the web server's own time limits and any further cancellation of a response task that is already closing are not modelled.
- LiveStream.DownloadIsPrefix: one transfer with one sender, whose last message is transfer-done, and one download, whose request gets the queue in the same step as it finds the transfer.
