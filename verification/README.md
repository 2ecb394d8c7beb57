# NGM control plane: verified model

NGM keeps database rows, nginx and BIND files, and the running nginx in step. This project models the
parts of it where that can go wrong, proves what they promise over whole runs, and, where a promise does
not hold for every input, states exactly when it does.

To verify: `dafny verify dfyconfig.toml` (Dafny 4.11).

## How it is organised

| file | what it models |
|---|---|
| `Text.dfy` | trimming, lower-casing, the order of Go strings and SQL text, sorted listings |
| `Nginx.dfy` | live, backup and staged vhost files, and the file-system steps that replace them |
| `Store.dfy` | the sites and users tables |
| `Apply.dfy` | the apply batch, its single-domain form, test, reload and rollback |
| `ApplyFacts.dfy`, `ApplySafety.dfy`, `ApplyRestorable.dfy`, `ApplyIncremental.dfy`, `ApplyRace.dfy`, `ApplySingle.dfy`, `ApplyLimits.dfy`, `ApplyOutcome.dfy` | proofs about it: exact rollback and safe runs, runs that need no backup condition, incremental against full, edits during an apply, single against batch, limits and starvation, the outcome of each apply |
| `Lifecycle.dfy` | SiteAdd, SiteEdit, SiteDelete, SiteEnable, SiteDisable over rows and managed DNS names |
| `LifecycleFacts.dfy`, `Hierarchy.dfy`, `Quotas.dfy`, `DnsSaga.dfy`, `LifecycleOutcome.dfy` | proofs about it: parents and subdomains, quotas, rows against DNS, what each operation accepts and writes |
| `Zone.dfy`, `Bind.dfy`, `BindProofs.dfy` | zone files, the BIND provider, proofs about the records of one call |
| `BindSettles.dfy`, `BindOutcome.dfy`, `BindRefinement.dfy` | a second call on the file of the first; what a zone file holds; the provider as an implementation of the lifecycle's zones |
| `Backup.dfy`, `Dump.dfy`, `Restore.dfy` | the tables with their ids, the scoped export, the import |
| `RestoreFacts.dfy`, `RestoreProofs.dfy`, `RoundTrip.dfy`, `Rename.dfy`, `DumpScopes.dfy`, `RestoreOutcome.dfy` | proofs about them: closed form of the import, round trip, repetition, order, renaming, what each scope exports and each entry becomes |
| `Webroots.dfy`, `SiteFiles.dfy` | which user a webroot belongs to; which files of a site an archive holds and where they land |
| `Overrides.dfy`, `OverridesProofs.dfy`, `OverridesOutcome.dfy` | php.ini override texts and the sorted override listing |
| `Login.dfy` | the login lockout |
| `ApplyCounterexamples.dfy`, `LifecycleCounterexamples.dfy`, `BindCounterexamples.dfy`, `BackupCounterexamples.dfy` | concrete inputs on which a plausible promise fails |

Code that changes state is modelled by classes with the same state (`NginxManager.Manager`,
`SiteStore.Store`, `ApplyPipeline.App`, `Lifecycle.Sites`, `BindProvider.Provider`,
`BackupRestore.Archive`, `LoginLockout.PanelUser`). Each of their methods is proved equal to a function
of the old state, and the theorems are about those functions and about runs of them. What such a function
promises, and does not merely compute, is said a second time without it: the `...Outcome` files state for each
operation what it accepts, answers, writes and leaves alone, field by field. What the outside
world does (a failed write, a rejected test, a failed reload, a refused row, a provider call that fails before
or after it wrote its zone file, the clock) is a parameter, so every theorem is about all outcomes unless it
names the ones it needs.

## What the code does not promise

For each of these there is a theorem that says exactly when the promise holds, and a lemma with a concrete
input on which it does not.

- A rollback trusts any non-empty backup. After a site was removed its backup stays, so a rejected
  re-publish of it brings the old file back and loads it, also if nginx rejects that one
  (`ApplySafety.RollbackIsExact`, `SingleServesExactly`, `BatchServesExactly`; `StaleBackupIsServed`).
- An empty live file is lost by a rollback, and so is a live file that could not be examined when it was
  replaced (`NginxManager.PublishThenRollback`; `ApplyCounterexamples.EmptyFileIsLost`, `UnseenFileIsLost`).
- An edit that carries the time stamp of the last good apply is never applied incrementally
  (`ApplyIncremental.SaveKeepsCurrent`; `ApplyCounterexamples.EditAtApplyTimeIsLost`).
- A deletion that fails after removing the file leaves a row that looks applied
  (`ApplyIncremental.RemoveKeepsCurrent`; `ApplyCounterexamples.HalfDeletedLooksApplied`).
- An edit made between the listing and the recording of its site is lost, however late it is stamped
  (`ApplyRace.EditDuringApply`; `ApplyCounterexamples.EditDuringApplyIsLost`).
- Disabled rows count against the limit of every run, so as many of them as the limit allows starve the
  rows behind them for ever (`ApplyLimits.ReachedUnlessStarved`, `DisabledRowsStarve`;
  `ApplyCounterexamples.DisabledRowTakesTheLimit`).
- After a rolled-back batch the per-domain results still say ok; `applyOne` says fail
  (`ApplySingle.SingleIsBatch`; `ApplyCounterexamples.RolledBackIsReportedDone`).
- Adding a domain that is already stored, or editing one, can take a parent away from its subdomains; without
  DNS a parent can be deleted (`Hierarchies.AddKeepsHierarchy`, `EditKeepsHierarchy`, `DeleteKeepsHierarchy`;
  `LifecycleCounterexamples.AddOrphans`, `EditOrphans`, `DeleteOrphans`).
- An owner change is not counted against the new owner's quota (`Quotas.EditKeepsQuota`;
  `LifecycleCounterexamples.EditOverfills`).
- A deletion reloads nginx without a test, so it is unsafe exactly when nginx rejects the files it leaves
  (`ApplySafety.RemovalServes`; `ApplyCounterexamples.RemovalIsReloadedUntested`).
- A delete that fails after DNS was taken down, other than at the row, does not put DNS back, and DNS can be taken
  down by a provider call that fails, since the zone file goes before the checks and the reload
  (`DnsSagas.DeleteKeepsSync`; `LifecycleCounterexamples.DeleteLosesZone`, `FailedDeleteTakesZone`).
- A failed SiteAdd takes its row back but not what the provider wrote before it failed
  (`DnsSagas.FailedAddLeavesRows`; `LifecycleCounterexamples.FailedAddLeavesZone`).
- A name server of the template that does not read back as itself, such as one without the final dot, is added to
  the zone file again by every call that keeps the zone TTL (`BindSettles.RootSettlesExactly`, `RootGrows`;
  `BindCounterexamples.RelativeNameserverGrows`).
- The TTL of the first record in the written order becomes that of the zone, so a template record with another TTL
  can change it, and then the name servers are written a second time (`BindSettles.RootSettlesExactly`,
  `RootTTLDrifts`; `BindCounterexamples.ShortTTLTakesOver`).
- A restore finds a reseller only if it sorts before its user, so others lose theirs
  (`RoundTrip.FullRoundTrip`, `DumpAgain`; `BackupCounterexamples.LateResellerIsLost`).
- Restored files land below the home root of the user, which is where the webroot points only if that was the
  user's home (`RestoreRename.WebrootFollowsFiles`; `BackupCounterexamples.HomeElsewhereLosesFiles`).
- A site has no files in the archive unless the parent of its webroot is the owner's home or lies below it, and not
  in a directory of the home whose name begins with two dots (`SiteFiles.ArchivedExactly`;
  `BackupCounterexamples.NotArchived`).

## Model

| member | source | states |
|---|---|---|
| NginxManager.Manager.WriteFileAtomic | internal/util/utilities.go:29-67 | at every step the destination holds the complete old or the complete new content; an error leaves all managed files as they were and no temporary file unless its removal failed too |
| NginxManager.Manager.RemoveLiveSite | internal/nginx/manager.go:118-144 | a crash at any step leaves the old live file, or none with the old one complete in the backup; an error leaves the live file; no other domain is touched |
| NginxManager.Manager.StageSite | internal/nginx/manager.go:146-191 | staging changes no live file and no backup at any step |
| NginxManager.Manager.Publish | internal/nginx/manager.go:193-231 | a crash at any step leaves the complete old or the complete new live file, and once it is not the old one the backup is exactly the old one if the old file could be examined; an error leaves the live file; an empty domain is refused |
| NginxManager.Manager.Rollback | internal/app/apply.go:333-344 | one round of the rollback: a non-empty backup becomes the live file, otherwise the live file goes |
| NginxManager.PublishThenRollback | internal/nginx/manager.go:206-230 | undoing a publish gives the old live file back if and only if it was non-empty and seen (or already backed up), or there was neither a live file nor a non-empty backup |
| NginxManager.RemoveThenRollback | internal/nginx/manager.go:118-144 | undoing a removal gives the old live file back if and only if it was not empty |
| SiteStore.Store.UpsertSite | internal/store/sqlite/sqlite.go:118-140 | the row is refused without domain, user or webroot; a new row was never applied, a rewritten one keeps its apply result and gets the new time |
| ApplyOutcomes.SaveOutcome | internal/store/sqlite/sqlite.go:118-140 | field by field: what was asked for, the default mode, no blank parent, the given flag and time, and the apply result as it was or none |
| SiteStore.Store.UpdateApplyResult | internal/store/sqlite/sqlite.go:502-505 | exactly the row of that domain gets the result and the time; an unknown domain changes nothing |
| SiteStore.Store.EnsureUser | internal/store/sqlite/sqlite.go:69-75 | a known name keeps its id and a new one gets a fresh id |
| ApplyPipeline.App.Apply | internal/app/apply.go:46-205 | the imperative batch, with its limit, dry run, skips, per-domain errors, test, reload and undo, does exactly what its specification on rows, files, clock and reload log says; `ApplyOutcomes.BatchOutcome` and `BatchDryRun` say what that is |
| ApplyPipeline.App.ApplyOne | internal/app/apply.go:207-317 | the same for the single-domain form, with `ApplyOutcomes.SingleOutcome` and `SingleDryRun` |
| ApplyPipeline.App.RunBatch | internal/app/apply.go:76-169 | the loop with its running counters is the step-by-step run over the listed sites, also when the limit ends it early |
| ApplyPipeline.App.RollbackFromBackup | internal/app/apply.go:333-344 | the undo of a list of domains is the undo of each in turn |
| ApplyPipeline.App.TestAndReload | internal/app/apply.go:177-204 | nothing is undone unless the test or the reload fails, and then files are put back before the second reload |
| ApplyOutcomes.BatchOutcome | internal/app/apply.go:76-204 | the whole batch: one entry per listed site up to the limit, skipped exactly when up to date; for each site worked on, its live file, backup, recorded status, hash and error; one test and reload of what was tried, and after a failure the rollback and a reload of what was put back, as a literal log; everything else as it was |
| ApplyOutcomes.FailedBatchReloadsBack | internal/app/apply.go:177-200 | a batch that fails ends with a reload of the files it put back, and if that succeeds nginx runs them |
| ApplyOutcomes.BatchDryRun | internal/app/apply.go:86-112 | a dry run changes nothing and reports dry-run for every site with work, skipped for the others, up to the limit |
| ApplyOutcomes.SingleOutcome | internal/app/apply.go:223-316 | the same for one site: entry, files, log and row, including a change that is put back and a removal with nothing to remove |
| ApplyOutcomes.FailedSingleReloadsBack | internal/app/apply.go:236-303 | one site that fails after its files changed ends with a reload of the files put back |
| ApplyOutcomes.SingleDryRun | internal/app/apply.go:211-221 | a dry run of one site changes nothing, reports dry-run with the action that would be taken, and fails for an unknown one |
| ApplyOutcomes.SingleUnknown | internal/app/apply.go:211-214 | a domain without a row is an error that changes nothing |
| ApplyOutcomes.RemovalOutcome | internal/app/site.go:493-526 | a deletion moves a live file to its backup, asks nginx to reload what is left, and deletes the row if and only if all of that succeeds |
| ApplyFacts.AtSite | internal/app/apply.go:76-169 | with distinct normalised domains the outcome for one domain depends only on its own row and its own files, and the row records exactly that outcome |
| ApplyFacts.RolledBackAt | internal/app/apply.go:333-344 | undoing a list, repeated names included, undoes each named domain once and leaves all others |
| ApplyFacts.CommitAt | internal/app/apply.go:177-204 | a domain either keeps what was published for it, or the undo ran and its row says failed with the cause |
| ApplySafety.RollbackIsExact | internal/app/apply.go:177-200 | after a failed batch every live file, changed or not, is what it was before if and only if every changed domain was restorable |
| ApplySafety.RollbackLeaves | internal/app/apply.go:333-344 | in general a changed domain ends with its non-empty backup, or absent |
| ApplySafety.RemovalLeavesStaleBackup | internal/nginx/manager.go:130-142 | every removal of a non-empty live file leaves a domain that a later failed publish cannot restore |
| ApplySafety.BatchServes | internal/app/apply.go:76-204 | one guarded batch: the live and the running set stay accepted, and each reload is of the set just tested or of the starting set |
| ApplySafety.SingleServes | internal/app/apply.go:207-317 | the same for the single-domain form |
| ApplySafety.RemovalServes | internal/app/site.go:493-510 | a deletion, wherever it fails, keeps live, running and reloaded sets accepted if and only if it removes no live file or nginx accepts the files that are left |
| ApplySafety.RunServes | internal/app/apply.go:46-317 | over any run of applies, edits, toggles and deletions meeting the backup conditions, no rejected set is ever live after a step, running, or asked to be loaded |
| ApplySafety.BatchServesExactly | internal/app/apply.go:173-204 | a tested batch keeps live, running and reloaded sets accepted if and only if nothing changed, or the new set was accepted and loaded, or what the rollback puts together is accepted |
| ApplySafety.SingleServesExactly | internal/app/apply.go:207-317 | the same for one site, in terms of the live set with its new file and with its rolled-back file |
| ApplySafety.StaleBackupIsServed | internal/app/apply.go:333-344 | an input where it is not: a rejected re-publish loads a rejected file |
| ApplyRestorable.HealthyIsGuarded | internal/nginx/manager.go:206-230 | where every domain is restorable and nothing is disabled, the backup condition of every apply holds by itself |
| ApplyRestorable.AddingRunServes | internal/app/apply.go:46-317 | over any run of adds, edits, enables and applies, with no condition on the states in between, no rejected set is ever live after a step, running, or asked to be loaded, and every domain stays restorable |
| ApplyIncremental.BatchKeepsCurrent | internal/app/apply.go:114-117 | whatever fails in a batch, each enabled row that is not pending still has its rendering live |
| ApplyIncremental.SingleKeepsCurrent | internal/app/apply.go:207-317 | the same for the single-domain form |
| ApplyIncremental.SaveKeepsCurrent | internal/store/sqlite/sqlite.go:127-135 | saving a site keeps it so if and only if the edit is not stamped with the time of the last good apply while asking for something else |
| ApplyIncremental.ToggleKeepsCurrent | internal/store/sqlite/sqlite.go:204-212 | the same for enabling and disabling |
| ApplyIncremental.RemoveKeepsCurrent | internal/app/site.go:493-526 | a deletion keeps it so if and only if it does not stop between removing the file and deleting a row that looks applied |
| ApplyIncremental.BatchKeepsStamped | internal/store/sqlite/sqlite.go:502-505 | no apply, failed or not, leaves a row stamped later than the clock |
| ApplyIncremental.LaterEditIsNotLost | internal/app/apply.go:346-357 | in such a state an edit later than the clock is not lost |
| ApplyIncremental.RunKeepsCurrent | internal/app/apply.go:346-357 | while every edit advances the clock and deletions are followed through, not pending means deployed in every reachable state, whatever applies do and however they fail in between |
| ApplyIncremental.ReachableIncrementalIsFull | internal/app/apply.go:114-117 | so after any such run from a store without sites the unlimited incremental apply does what the full one does |
| ApplyRace.EditDuringApply | internal/app/apply.go:64-169 | an edit made after the listing is deployed or pending afterwards if and only if its site was not recorded as applied, or is disabled by the edit, or what went live is what the edit asks for |
| ApplyIncremental.IncrementalIsFull | internal/app/apply.go:114-117 | from such a state the unlimited incremental apply leaves the same live files, backups, running configuration and reload log as the full one, and reports the same changes and error |
| ApplyIncremental.FullApplyConverges | internal/app/apply.go:76-175 | after an unlimited full apply with every domain done, enabled rows have their rendering live, disabled rows have no file, nothing is pending, unknown files are untouched |
| ApplyIncremental.FullApplyTwice | internal/nginx/manager.go:207-212 | a second identical call changes no file, reports no change, does not test or reload |
| ApplySingle.SingleIsBatch | internal/app/apply.go:207-317 | on one site the two forms agree on files, running set, reload log, error and change report; they record the same if and only if there was a removal to do or the row already said so; only the single form reports a rolled-back domain as failed |
| ApplyLimits.ReportsWithinLimit | internal/app/apply.go:76-79 | results other than skips never exceed the limit |
| ApplyLimits.LimitedRun | internal/app/apply.go:76-122 | a limited run without failures leaves pending exactly the pending sites with that much work listed before them |
| ApplyLimits.ProgressIff | internal/app/apply.go:86-112 | a limited run without failures clears something if and only if some pending site has less work than the limit listed before it, disabled rows included |
| ApplyLimits.DisabledRowsStarve | internal/app/apply.go:77-112 | a site with as many disabled rows before it as the limits allow keeps its row unchanged through any number of applies, failures and dry runs included |
| ApplyLimits.ReachedUnlessStarved | internal/app/apply.go:77-122 | repeated runs without failures clear a pending site if and only if fewer disabled rows than the limit come before it, and one run more than there are pending sites before it is enough |
| ApplyLimits.LimitedRunClears | internal/app/apply.go:108-122 | without disabled rows a run clears exactly the smaller of the limit and the pending count |
| ApplyLimits.LimitedRunsTerminate | internal/app/apply.go:76-79 | so m such runs clear the smaller of m times the limit and everything |
| Lifecycle.Sites.SiteAdd | internal/app/site.go:236-364 | every check in order, the owner registered before the checks, one row written, DNS after it, the row of a new domain taken back when DNS fails, and what a failing provider call wrote left where it is |
| Lifecycle.Sites.SiteEdit | internal/app/site.go:529-688 | every check in order, what is kept from the row and what is derived anew, one row written, as `LifecycleOutcomes.EditOutcome` spells out |
| Lifecycle.Sites.SiteDelete | internal/app/site.go:463-527 | dependents, then DNS, then nginx, then the row, and which of them is put back when the row stays; a provider call that fails may have taken the zone |
| Lifecycle.Sites.SetEnabled | internal/app/site.go:441-459 | disabling lower-cases the name and does not notice an unknown one; enabling only trims it and refuses an unknown one |
| LifecycleOutcomes.DomainsExactly | internal/app/site.go:139-155 | a domain is accepted as such if and only if it is two or more labels of at most 63 letters, digits and inner hyphens with dots between them |
| LifecycleOutcomes.AddOutcome | internal/app/site.go:236-363 | SiteAdd writes a row if and only if the request meets the stated conditions; the row has every field that was asked for or its default, a new row is taken back when DNS fails, and users, zones and the answer are as stated |
| LifecycleOutcomes.AddRefusal | internal/app/site.go:236-337 | and otherwise the answer names the first condition that is not met |
| LifecycleOutcomes.EditOutcome | internal/app/site.go:529-688 | SiteEdit succeeds if and only if the stated conditions hold; then every field and the enabled flag are what the request names, trimmed, and else as they were, or the derived webroot when user or parent is set |
| LifecycleOutcomes.EditRefusal | internal/app/site.go:529-671 | and otherwise the answer names the first condition that is not met |
| LifecycleOutcomes.EditOfNothing | internal/app/site.go:573-645 | an edit that names nothing changes only the time of the row |
| LifecycleOutcomes.DeleteOutcome | internal/app/site.go:463-527 | SiteDelete, outcome by outcome: which answer, whether the row is gone, and which name or zone is gone or back |
| LifecycleOutcomes.ToggleOutcome | internal/app/site.go:441-459 | enabling sets and disabling clears the flag of that one row, with the new time, and changes nothing else |
| LifecycleFacts.ValidatedParent | internal/app/site.go:157-185 | a parent that passes is a stored root of the same owner, and the domain is one non-empty dotless label below it |
| LifecycleFacts.AcceptedRow | internal/app/site.go:236-338 | the row that SiteAdd writes is normalised, well placed below its parent and within its limit |
| LifecycleFacts.EditRefused | internal/app/site.go:529-688 | an edit goes through exactly when every check on the request, the row and the store passes |
| LifecycleFacts.EditedRow | internal/app/site.go:593-688 | the row that SiteEdit writes is normalised and well placed, keeps its parent while DNS is enabled, and has room if it changes kind |
| Hierarchies.AddKeepsHierarchy | internal/app/site.go:236-340 | SiteAdd keeps every subdomain below a stored root of the same owner if and only if it does not rewrite a stored parent as a subdomain or for another owner |
| Hierarchies.EditKeepsHierarchy | internal/app/site.go:593-615 | the same for SiteEdit |
| Hierarchies.SameOwnerEdit | internal/app/site.go:603-611 | with DNS enabled an edit that keeps the owner never breaks the hierarchy |
| Hierarchies.DeleteKeepsHierarchy | internal/app/site.go:472-490 | SiteDelete breaks it exactly when DNS is off and a parent's row goes |
| Hierarchies.BlockedIffChildren | internal/app/site.go:478-482 | the case-insensitive dependents check refuses exactly the roots that have subdomains |
| Hierarchies.RunKeepsHierarchy | internal/app/site.go:157-185 | the hierarchy holds after any run of adds of new domains, owner-preserving edits, toggles and deletes, with any failures |
| Quotas.PutWithin | internal/app/site.go:187-195 | writing one row keeps all quotas if and only if its new owner had room or it already counted there |
| Quotas.AddKeepsQuota | internal/app/site.go:284-300 | no SiteAdd, of a new or a stored domain, takes any user over a limit |
| Quotas.EditKeepsQuota | internal/app/site.go:646-671 | SiteEdit keeps the quotas if and only if it does not hand a site to an owner without room |
| Quotas.RunKeepsQuota | internal/store/sqlite/sqlite.go:192-202 | with fixed limits no user's count of roots or subdomains exceeds its limit after any run of adds, owner-preserving edits, toggles and deletes |
| DnsSagas.AddKeepsSync | internal/app/site.go:342-363 | SiteAdd keeps every stored site published if and only if it does not leave the row of a name that was not published before and that the provider failed to write |
| DnsSagas.FailedAddLeavesRows | internal/app/site.go:342-363 | a failed SiteAdd of a new domain leaves the rows as they were if and only if it is not an accepted one whose DNS fails and whose row cannot be deleted again, and DNS if and only if the failing provider had not written a new zone or name; it never takes a name away |
| DnsSagas.DeleteKeepsSync | internal/app/site.go:472-526 | SiteDelete keeps them in step if and only if the provider took nothing away, or it succeeded, nginx follows, and either the row goes or the call that puts DNS back writes; no other site loses anything |
| DnsSagas.EditKeepsSync | internal/app/site.go:603-611 | no SiteEdit takes a site out of its zone |
| DnsSagas.RunKeepsSync | internal/app/site.go:320-527 | over any run without a stranding step, provider calls that fail half-way included, every stored root has its zone and every stored subdomain its place in it |
| DnsSagas.CompensatedRunKeepsSync | internal/app/site.go:342-363 | in particular over runs of new domains whose rows can be taken back and of deletions whose provider call fails without a trace or whose compensations take effect |
| ZoneFiles.OrderedIsSort | internal/dns/bind/zonefile.go:68-81 | the written order is sorted by name, type and text and loses or doubles no record |
| BindOutcomes.WrittenOrder | internal/dns/bind/zonefile.go:70-79 | of two lines the one with the smaller name, then type, then text comes first |
| Text.LeExactly | internal/dns/bind/zonefile.go:73-79 | where a prefix is smaller, and otherwise the first difference decides |
| ZoneFiles.SortedUnique | internal/dns/bind/zonefile.go:68-81 | a multiset of records has one such order |
| ZoneFiles.LoadWrite | internal/dns/bind/zonefile.go:24-66 | what is written loads as the same records with the TTL of the first one that has one |
| ZoneFiles.WriteIsCanonical | internal/dns/bind/zonefile.go:54-66 | two zone models give the same file if and only if they agree on the TTL and on the multiset of records |
| ZoneFiles.EnsureRR | internal/dns/bind/zonefile.go:83-91 | a record is appended exactly if no record prints alike |
| ZoneFiles.RemoveInPlace | internal/dns/bind/zonefile.go:93-115 | compaction in the same array keeps exactly the other records, in order, and writes nothing behind them |
| ZoneFiles.WithoutMembers | internal/dns/bind/zonefile.go:105-115 | removal takes every copy at that name and type and no copy of anything else |
| ZoneFiles.WithoutNothing | internal/dns/bind/zonefile.go:105-115 | removal is the identity if and only if there is nothing at that name and type |
| BindProvider.Provider.WriteIncludeFile | internal/dns/bind/namedconf.go:12-52 | the include file lists exactly the zones in the directory, once each, in order |
| BindProvider.Provider.EnsureRootSite | internal/dns/bind/bind.go:35-66 | only the file of that zone changes, also when a later check or reload fails; an unreadable zone file is not overwritten; `BindOutcomes.RootFileHolds` says what it holds |
| BindProvider.Provider.EnsureSubdomainSite | internal/dns/bind/bind.go:68-94 | it needs the parent zone, and changes only its file |
| BindProvider.Provider.DeleteSubdomainSite | internal/dns/bind/bind.go:96-116 | a missing zone is fine; otherwise only the parent's file changes |
| BindProvider.Provider.DeleteRootSite | internal/dns/bind/bind.go:118-131 | the file goes, and on success the include file is the image of what is left |
| BindProvider.Provider.GetSiteEntry | internal/dns/bind/bind.go:238-312 | the counting loop answers record exactly if an address record is at the name, and tells a missing from an unreadable zone |
| BindProofs.RootRecordsAre | internal/dns/bind/bind.go:151-186 | for any template, relative name servers included: all other records stay in order, all template records and name servers are there, and there is exactly one apex SOA, the fresh one, if and only if the template does not bring another |
| BindProofs.RootRecordsTwice | internal/dns/bind/bind.go:151-186 | with no SOA in the template, ensuring again on the same records exchanges the SOA and nothing else, in whatever order they come back |
| BindSettles.CalledReads | internal/dns/bind/zonefile.go:24-52 | the file of a call can be read by the next if and only if its SOA and its name servers can, and it goes by the TTL of the first record that has one |
| BindSettles.EnsureRootTwice | internal/dns/bind/bind.go:35-66 | through the file: when the SOA reads, the name servers read back as themselves and the zone keeps its TTL, a second call leaves all but the apex SOA as it is; without an SOA in the template it changes only the serial, and with the same serial nothing |
| BindSettles.RootSettlesExactly | internal/dns/bind/bind.go:151-186 | a second call with the same serial writes the same file if and only if those three hold |
| BindSettles.RootGrows | internal/dns/bind/bind.go:158-161 | when the file can be read and the zone keeps its TTL but some name server does not read back as itself, the next call adds a record, and with the same serial, or no SOA in the template, a line |
| BindSettles.RootTTLDrifts | internal/dns/bind/zonefile.go:33-51 | with a first record of another TTL the zone takes that TTL over, and each name server is there with both |
| BindProofs.EnsureThenDelete | internal/dns/bind/bind.go:68-116 | deleting right after ensuring gives the records back in order if and only if the name had no address |
| BindProofs.SameMultisetSame | internal/dns/bind/bind.go:68-116 | and as a multiset under the same condition |
| BindProofs.SubdomainRoundTrip | internal/dns/bind/bind.go:68-116 | through the files, for a zone file that is written as it is read: it comes back byte for byte if and only if the name had no address; the entry is a record in between when an address is set, and missing after |
| BindProofs.OthersUntouched | internal/dns/bind/bind.go:96-186 | ensuring takes no address from any name and deleting a subdomain takes only its own |
| BindOutcomes.RootZoneHolds | internal/dns/bind/bind.go:151-186 | after ensuring a root its zone holds exactly: the old records but for the apex SOA, a fresh SOA, the name servers and records of the template, and each configured default address at the apex |
| BindOutcomes.SubZoneHolds | internal/dns/bind/bind.go:68-86 | after ensuring a subdomain the parent zone holds exactly: the old records and each configured default address at the name |
| BindOutcomes.SubZoneKeeps | internal/dns/bind/bind.go:96-109 | after deleting a subdomain it holds exactly the records other than addresses at the name |
| BindOutcomes.StartsFrom | internal/dns/bind/bind.go:133-149 | which template is used, and what a zone starts from: its file if every line reads, with the TTL of the first record that has one, or no records and the TTL of the template |
| BindOutcomes.SubStartsFrom | internal/dns/bind/bind.go:230-236 | what a subdomain starts from: the file of its parent if every line reads, with the TTL of the first record that has one, or else of the default template, or else 3600 |
| BindOutcomes.StatusExactly | internal/dns/bind/bind.go:238-312 | the status of an entry: missing, unreadable, a zone, or a record exactly if a line of the parent's zone is an address of the name |
| BindOutcomes.RootFileHolds | internal/dns/bind/zonefile.go:54-66 | so the file has the line of each of these records, the default addresses included, and no other line |
| BindRefinement.TextCodecIsSound | internal/dns/bind/zonefile.go:24-66 | the assumption on how records print and read can be met, by one in which relative name servers come back changed |
| BindRefinement.EnsureSite | internal/app/site.go:342-363 | whatever fails outside, before or after the file was written, the provider call succeeds exactly if the lifecycle says so, and in each zone file exactly the names of the lifecycle's zone map and the template's own have an address, the name itself too when a default address is configured; the template's SOA and name servers must be readable |
| BindRefinement.DeleteSite | internal/app/site.go:472-491 | the same for the deletion, which succeeds exactly if every step that it takes does |
| BackupTables.PutPanelView | internal/store/sqlite/sqlite.go:266-328 | creating or updating a panel user keeps ids and foreign keys consistent and changes only that user; without a reseller the old one stays |
| BackupTables.PutUserView | internal/store/sqlite/sqlite.go:69-75 | upserting a system user keeps its id, so its sites stay its sites |
| BackupTables.PutSiteView | internal/store/sqlite/sqlite.go:118-140 | upserting a site keeps its id, so its proxy targets stay its targets |
| BackupTables.PutTargetView | internal/store/sqlite/sqlite.go:256-259 | upserting a proxy target changes only that target of that site |
| BackupDump.BuildDump | internal/backup/backup.go:83-206 | the export fails exactly if the subject of the scope does not exist, and otherwise lists every panel user, user, package, site and target of the scope exactly once, whatever the map-iteration order |
| BackupDump.DumpUsers | internal/backup/backup.go:140-159 | the user loop lists exactly the included users, in name order, and collects exactly the ids of those that own sites |
| BackupDump.DumpSites | internal/backup/backup.go:171-188 | the site loop lists each site of those owners once, with its targets |
| DumpScopes.ScopesFail | internal/backup/backup.go:107-141 | a user scope fails if and only if there is no such panel user, a reseller scope if and only if there is no such reseller |
| DumpScopes.ScopeHolds | internal/backup/backup.go:107-188 | an export has exactly the panel users of its scope (the user; the reseller and the users with role user that name it; all) with every stored field, and the homes, sites and proxy targets of these |
| DumpScopes.UserScopeIsOne | internal/backup/backup.go:107-119 | the export of a user has one panel user |
| DumpScopes.ResellersShareNothing | internal/backup/backup.go:120-131 | the exports of two resellers share no panel user, home, site or proxy target |
| BackupRestore.Archive.Restore | internal/backup/restore.go:71-154 | the import loops, with their id maps, do to the tables what the specification says by name, up to the first entry that the store refuses |
| BackupRestore.Archive.RestorePanel | internal/backup/restore.go:71-90 | a reseller is found through the ids of the entries restored before |
| BackupRestore.Archive.RestoreSites | internal/backup/restore.go:125-144 | sites of unknown owners are skipped |
| RestoreProofs.RestoreIsImport | internal/backup/restore.go:38-154 | restoring an export of one store into any other is a closed form on names, without loops, order or ids |
| RestoreProofs.NothingRefused | internal/backup/restore.go:93-141 | no entry of an export is refused |
| RestoreProofs.RestoreKeepsStored | internal/backup/restore.go:38-154 | whatever the archive holds and wherever the restore stops, no row is left without its mandatory fields, its owner, its reseller or its site |
| RestoreOutcomes.RestoreOutcome | internal/backup/restore.go:43-154 | a restore that is refused nowhere writes each entry field by field, with its defaults, its new name and the reseller restored before it, skips sites without owner and targets without site, and leaves all other rows |
| RestoreOutcomes.RefusedExactly | internal/backup/restore.go:93-141 | a restore stops exactly at a user without name or home and at a site of a restored user without domain or webroot |
| RestoreOutcomes.ReplacesTheFirst | internal/backup/restore.go:133-137 | in a webroot exactly the first mention of the old home is replaced |
| RoundTrip.FullRoundTrip | internal/backup/restore.go:71-90 | a full archive restored into an empty store gives the store back, with system users filled in, if and only if every reseller sorts before its users and the seeded packages were in the archive |
| RoundTrip.KeptIsAll | internal/backup/backup.go:140-157 | the archive carries everything if and only if every system user is a panel user and every panel user names its system user |
| RoundTrip.DumpAgain | internal/backup/backup.go:83-206 | dumping, restoring into an empty store and dumping again gives the same sets, with system users filled in, if and only if every named reseller sorts before its users and the seeded packages were in the archive |
| RoundTrip.RestoreTwice | internal/backup/restore.go:38-154 | restoring an archive twice is restoring it once, also where it stops at an error |
| RoundTrip.ExportsAreDistinct | internal/backup/backup.go:83-206 | every export, also under a new user name, has one entry per row |
| RoundTrip.SiteOrder | internal/backup/restore.go:125-154 | any permutation of the sites of an archive restores alike |
| RoundTrip.ExportOrder | internal/backup/backup.go:173-188 | two exports of one store restore alike |
| RestoreRename.RestoreRenames | internal/backup/restore.go:30-154 | with a new user name the result is the dump renamed old to new, on top of what the store held |
| RestoreRename.WebrootFollowsFiles | internal/backup/restore.go:254-272 | without a new name a site's files land where its webroot points if and only if the user's home is the one below the home root |
| RestoreRename.RenamedWebrootFollowsFiles | internal/backup/restore.go:131-137 | with a new name, a webroot that mentions the old home below the home root follows its files if and only if that is the user's home; any other, if and only if the home is already the new one |
| RestoreRename.RestoredSitesFollowFiles | internal/backup/restore.go:254-272 | so in the restored store every site of the renamed user points at its restored files exactly under that condition, in particular with homes at the home root |
| SiteFiles.ArchivedExactly | internal/backup/backup.go:35-59 | a file is archived if and only if it is not a log and the parent of the webroot is the home or lies below it, and then under its own path below the home |
| SiteFiles.LogsAre | internal/backup/backup.go:51-53 | the logs are the entry of that name and everything below it |
| SiteFiles.WebrootFilesArchived | internal/backup/tar.go:69-98 | every file below a webroot in the home is archived, and lands below the place where the path of the webroot lands |
| SiteFiles.DerivedIsArchived | internal/app/site.go:209-214 | everything but the logs of a site with a derived webroot is archived |
| Webroots.InferredExactly | internal/app/template.go:216-231 | a webroot belongs to exactly the user whose directory below the home root it is or lies in |
| Webroots.TrailingSlash | internal/app/template.go:216-222 | slashes at the end of the home root do not count |
| Webroots.DerivedWebrootIsOwn | internal/app/site.go:209-214 | a derived webroot belongs to the site's owner |
| Webroots.RenamedWebrootMoves | internal/backup/restore.go:133-137 | a webroot restored under a new name belongs to the new user |
| Overrides.ParsePHPIniOverrides | internal/app/template.go:245-301 | the parsing loop with its two maps and warnings is the line-by-line parse |
| Overrides.SortedPairs | internal/fpm/pools.go:38-52 | exactly the map, each key once, in strictly increasing key order |
| OverridesProofs.StoredParsesAlike | internal/app/site.go:105-127 | the stored file means what the submitted text means, warnings included |
| OverridesProofs.StoringTwice | internal/app/site.go:105-127 | storing what was stored changes nothing |
| OverridesProofs.LaterTextWins | internal/app/template.go:245-301 | text read after other text overrides it key by key in each map, and warnings add up, whatever the line ends |
| OverridesProofs.PrintParse | internal/app/template.go:245-301 | printing two listings with legal keys and plain values and parsing the text gives their maps back |
| OverridesProofs.PrintParseMaps | internal/fpm/pools.go:38-52 | in particular for the sorted listings of two maps |
| OverridesOutcomes.AssignmentMeans | internal/app/template.go:258-298 | an assignment, split at its first equals sign: no prefix means php_admin_value, a known prefix in any case either map, any other prefix a bad key; which warning is given when |
| OverridesOutcomes.NoAssignment | internal/app/template.go:253-262 | blank lines and comments mean nothing, a line without an equals sign is warned of |
| OverridesOutcomes.UnprefixedText | internal/app/template.go:273-298 | an unprefixed key is set for php_admin_value |
| LoginLockout.PanelUser.HandleLogin | internal/web/server.go:290-328 | the answer, the counter and the lock after every attempt: four failures are counted, the fifth and each later one locks for 900 seconds from then, a login clears both |
| LoginLockout.AtMostFive | internal/web/server.go:298-321 | from any account state, a half-open window of fifteen minutes without a login has at most five failed password checks |
| LoginLockout.ThenAtMostOne | internal/web/server.go:312-318 | once five failures are on the account there is at most one failed check per window until a login |
| LoginLockout.FiveIsReached | internal/web/server.go:312-318 | five are possible |
| ApplyCounterexamples.EditAtApplyTimeIsLost | internal/app/apply.go:346-357 | a concrete edit that is never applied incrementally |
| ApplyCounterexamples.HalfDeletedLooksApplied | internal/app/site.go:493-510 | a concrete deletion that leaves an applied-looking row without a file |
| ApplyCounterexamples.EmptyFileIsLost | internal/app/apply.go:333-344 | a concrete rollback that removes an empty live file |
| ApplyCounterexamples.UnseenFileIsLost | internal/nginx/manager.go:214-223 | a concrete rollback that removes a live file whose examination failed |
| ApplyCounterexamples.EditDuringApplyIsLost | internal/app/apply.go:64-169 | a concrete edit during an apply that is neither deployed nor pending |
| ApplyCounterexamples.RolledBackIsReportedDone | internal/app/apply.go:159-188 | a concrete rejected batch whose only result says ok |
| ApplyCounterexamples.DisabledRowTakesTheLimit | internal/app/apply.go:77-112 | a concrete pending row that no number of applies with limit one reaches |
| ApplyCounterexamples.RemovalIsReloadedUntested | internal/app/site.go:493-510 | a concrete deletion that loads a set of files that nginx rejects |
| LifecycleCounterexamples.AddOrphans | internal/app/site.go:236-340 | a concrete accepted SiteAdd that takes a parent from its subdomain |
| LifecycleCounterexamples.EditOrphans | internal/app/site.go:529-688 | a concrete accepted SiteEdit that does |
| LifecycleCounterexamples.DeleteOrphans | internal/app/site.go:463-527 | a concrete SiteDelete without DNS that does |
| LifecycleCounterexamples.EditOverfills | internal/app/site.go:646-671 | a concrete accepted SiteEdit that takes a user over the quota |
| LifecycleCounterexamples.DeleteLosesZone | internal/app/site.go:483-499 | a concrete failed SiteDelete whose site keeps its row and loses its zone |
| LifecycleCounterexamples.FailedDeleteTakesZone | internal/dns/bind/bind.go:118-131 | a concrete SiteDelete whose provider call fails and takes the zone of a site that keeps its row |
| LifecycleCounterexamples.FailedAddLeavesZone | internal/app/site.go:342-353 | a concrete failed SiteAdd that takes its row back and leaves a zone |
| BindCounterexamples.RelativeNameserverGrows | internal/dns/bind/bind.go:158-161 | a concrete template whose zone file grows with the second call |
| BindCounterexamples.ShortTTLTakesOver | internal/dns/bind/zonefile.go:33-42 | a concrete template whose record makes its own TTL that of the zone |
| BackupCounterexamples.LateResellerIsLost | internal/backup/restore.go:79-84 | a concrete full round trip in which a user loses its reseller |
| BackupCounterexamples.HomeElsewhereLosesFiles | internal/backup/restore.go:254-272 | a concrete home for which webroot and restored files part |
| BackupCounterexamples.NotArchived | internal/backup/backup.go:41-49 | two concrete webroots whose files are not archived |

## Left out

- The rendering itself: template text, certificate discovery, PHP-FPM pool files, proxy targets and override files are an unknown function of the row; changes of those inputs without a change of the row are not modelled.
- nginx, systemctl, rndc, the BIND checkers, useradd, certbot: outcomes, or a predicate on the live set.
- The final sort of the apply results, which is the identity while stored domains are normalised.
- ApplyPipeline.App.Apply: store errors are ignored by the source when results are recorded; here recording always works. An edit made while an apply runs is the subject of `ApplyRace.EditDuringApply`, one edit per apply; two applies at once are not modelled.
- ApplyPipeline.App.ApplyOne: the domain is taken as normalised by its caller and not empty.
- Lifecycle.Sites.SiteAdd: proxy targets, the override file, apply-now and certificate issuance after the row are left out; they do not touch the rows, quotas or DNS.
- Lifecycle.Sites.SiteEdit: an un-normalised stored parent, which only a restored archive could bring in, is not compared case-insensitively.
- Lifecycle.Sites.SiteDelete: the outcomes of the nginx steps are parameters there; the files themselves are modelled with the apply pipeline.
- Lifecycle: a zone is the set of names whose addresses the panel manages; `BindRefinement.EnsureSite` and `DeleteSite` say how the zone files follow it. A template whose SOA or name servers print to lines that cannot be read makes a zone file that no later call can read; those theorems leave it out.
- Lower-casing covers ASCII only. `filepath.Join`, `Dir` and `Rel` are taken on clean absolute paths.
- BindProvider.Provider.EnsureRootSite: of the DNS library it is assumed, record by record, that what was read and what NewRR gave prints to a line that reads back as it, and that the SOA and NS literals, whose names may be relative, keep owner, type and TTL if they can be read back at all. For an address that does not parse NewRR gives nil, on which ensureRR calls String; that is outside the model.
- BackupRestore.Archive.Restore: tar, gzip, JSON, file ownership, warnings and counters; package assignments, which are looked up by the wrong kind of id; names in an archive are taken as trimmed, as the store leaves them.
- RestoreRename.RenamedWebrootFollowsFiles: user names are taken as path elements, without slashes.
- RoundTrip.FullRoundTrip: compares names and contents, not ids and time stamps; owner ids of panel users, failed-login counters and locks are not archived. A panel user with an empty name, archived as a reseller, cannot be told from none and counts as lost.
- ZoneFiles.RemoveInPlace: the variant with a data match is always called with a match that accepts everything.
- LoginLockout.PanelUser.HandleLogin: the password check and session creation are booleans; two requests at once are not modelled.
- SQL, migrations, the MySQL stubs, HTTP handlers, the command line, bootstrap and configuration defaults.
