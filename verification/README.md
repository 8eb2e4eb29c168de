# SimpleDeploy: verified models of the state that must agree

SimpleDeploy keeps one truth in several places: database rows, YAML sidecars, in-flight
deploys, event subscribers, compose labels, backup archives. This project models the code
that keeps those places in step and proves what it promises, for every input, every run
and every interleaving. `dafny verify dfyconfig.toml` checks all of it.

## How it is organised

| file | component |
|---|---|
| `DebouncedWriter.dfy` | debounced sidecar writer: timers that can be superseded, Close |
| `ConfigStore.dfy`, `Upserts.dfy` | tables with ids that are never reused, planned edits, upserts by natural key |
| `AlertRuleSync.dfy`, `BackupConfigSync.dfy`, `AppSidecar.dfy`, `AppSidecarSync.dfy` | per-app sidecar: reconcile, render, import; the row-by-row code |
| `GlobalSidecar.dfy`, `GlobalRoundTrip.dfy`, `GlobalIdempotence.dfy`, `GlobalSidecarSync.dfy` | global sidecar pair: apply, write, round trip, repeated apply; the row-by-row code |
| `DeployTracker.dfy`, `DeployLog.dfy` | exclusion of deploys per app; log streams |
| `EventBus.dfy` | event bus and the WebSocket resync handshake |
| `EndpointLabels.dfy`, `NetworkInjection.dfy`, `HostPaths.dfy`, `Paths.dfy` | compose labels, network injection, host path rules, Go's path cleaning |
| `RestoreCap.dfy`, `ArchiveNames.dfy`, `BackupPipeline.dfy` | restore size cap, archive names, hooks around backups and restores |
| `RateLimiter.dfy`, `DomainCache.dfy`, `MetricGaps.dfy` | fast forms and the simple thing each must agree with |
| `Prelude.dfy` | shared types and sequence facts |

State that the program updates in place is a class whose methods are proved equal to a
function of the old state; the theorems are about those functions and about runs of them.
Concurrent protocols are step relations over the critical sections under each lock, and
theorems quantify over every sequence of steps. Clocks, randomness, the outcome of
commands, transfers and list calls, lower-casing and symlink resolution are parameters, so
each theorem holds for all of them.

## Findings

Where the code does not meet the obvious property, the model keeps the code and the
project proves when the property holds.

- Applying an app's rules twice equals applying them once if and only if entries for one
  rule agree on `enabled` and that rule is stored already
  (`AlertRuleSync.ReconcileIdempotentIff`). Entries that disagree about a stored rule flip
  it at every apply (`AlertRuleSync.DisagreementFlips`); two entries for a rule that is not
  stored, even equal ones, insert it twice, and the next apply deletes the older row
  (`AlertRuleSync.TwinIsDeletedNextTime`).
- A backup entry without an id gets a row with a minted UUID, which the next apply deletes
  to insert another (`BackupConfigSync.EmptyIdChurns`). A repeated apply is the identity if
  and only if every entry has an id, or matches a stored row without one
  (`BackupConfigSync.ReconcileIdempotentIff`); for a whole sidecar both conditions together
  are exact (`AppSidecars.ApplyIdempotentIff`).
- Rendering and applying an app is the identity if and only if every rule's webhook is
  found again by its name and no rule is stored twice (`AppSidecars.AppRoundTrip`).
- Writing and applying the global pair is the identity if and only if, among webhooks of one
  name, the oldest has the type of the newest and the secrets of the newest that has any
  (`GlobalRoundTrips.GlobalRoundTripIff`); two webhooks of one name with different URLs
  change the database (`GlobalRoundTrips.RepeatedNameChanges`). A `|` in usernames or
  repeated key names do no harm, although the lookup keys then collide.
- Applying without the secrets file leaves every secret column alone, but a public file
  that itself names `target_config_enc` overwrites that setting: it survives if and only if
  the file does not name it or repeats it (`GlobalRoundTrips.RedactedSetting`).
- The resync promise needs publishes to be atomic per subscriber: a publisher that sets the
  stale flag only after the loop has drained the queue delays the resync until the next
  event (`EventBus.LateMarkDelaysResync`). With publishes split into their channel
  operations no drop is ever forgotten (`EventBus.NoForgottenDrop`), and once no publisher
  is under way an owed resync goes out by itself if and only if the loop is not waiting on
  an empty queue (`EventBus.ResyncUnlessIdle`).
- What a service's labels are parsed to is the same in every order of visits if and only if
  labels such as `endpoints.1.domain` and `endpoints.01.domain` agree
  (`EndpointLabels.DeterminedIffConsistent`). Endpoints written into a labels list, rather
  than a mapping, do not come back (`EndpointLabels.ListFormLosesEndpoints`).
- `ValidatePath` speaks of a trailing slash but accepts any number of them
  (`ArchiveNames.ValidPathShape`).

## Model

| member | source | states |
|---|---|---|
| `DebouncedWriter.Syncer.Schedule` | internal/configsync/configsync.go:216-244 | refused when closed, else a fresh timer replaces the key's timer and the key is pending |
| `DebouncedWriter.Syncer.Fire` | internal/configsync/configsync.go:231-242 | a callback goes on to write exactly when its timer is still the live one |
| `DebouncedWriter.Syncer.Close` | internal/configsync/configsync.go:158-175 | first Close takes exactly the pending keys with their timers; later ones take nothing |
| `DebouncedWriter.RunInv` | internal/configsync/configsync.go:158-244 | inductive invariant of every run of change, schedule, fire, write, close and flush steps |
| `DebouncedWriter.PendingIsLive` | internal/configsync/configsync.go:216-244 | in every state the pending keys are exactly those with a live timer, and that timer can still fire |
| `DebouncedWriter.ReplacedTimersNeverWrite` | internal/configsync/configsync.go:225-243 | a timer that a later schedule or Close took over never writes, before or after |
| `DebouncedWriter.AcceptedIsNeverLost` | internal/configsync/configsync.go:158-244 | until a write of its key starts, an accepted schedule is pending, held by a callback past the lock, or in Close's flush list |
| `DebouncedWriter.QuietMeansInSync` | internal/configsync/configsync.go:158-244 | with nothing on its way every file equals the database, except keys scheduled only after Close and keys whose last write failed |
| `DebouncedWriter.NothingMissedWhileOpen` | internal/configsync/configsync.go:216-222 | before Close that exception is empty |
| `DebouncedWriter.CloseDrains` | internal/configsync/configsync.go:158-196 | after Close only callbacks already past the lock and flushed keys write, each at most once, and written plus outstanding is constant |
| `DebouncedWriter.SchedulesAreAccounted` | internal/configsync/configsync.go:216-244 | every timer ever started is in exactly one of: live, past the lock, written, taken over |
| `DebouncedWriter.NoDoubleWrite` | internal/configsync/configsync.go:230-243 | no callback writes twice |
| `DebouncedWriter.ScheduleOutcome` | internal/configsync/configsync.go:216-244 | before the first Close a schedule starts a timer of its own that is the live one; after it nothing is started and the key is only remembered as missed |
| `DebouncedWriter.CloseOutcome` | internal/configsync/configsync.go:158-175 | the first Close takes every pending key to its flush list and leaves no live timer; a later one changes nothing |
| `DebouncedWriter.ClosedIsForever` | internal/configsync/configsync.go:158-222 | in every run the syncer is closed exactly from the first Close on |
| `DebouncedWriter.FilesAreWritten` | internal/configsync/configsync.go:198-244 | in every run a file holds what its last successful write found in the database, and a key counts as failed iff its last write failed |
| `AlertRuleSync.NamesLead` | internal/configsync/apply.go:43-50 | the name index leads to a webhook that bears the name, and finds every name |
| `AlertRuleSync.AppIndexFacts` | internal/configsync/apply.go:57-73 | the key index finds, for every stored key, its newest row |
| `AlertRuleSync.RulesReconciled` | internal/configsync/apply.go:52-118 | unless entries for one rule disagree or repeat a rule that is not stored, the app's rules are exactly the usable entries, each once and switched as asked; the newest row of each wanted stored key keeps its id; other ids are new |
| `AlertRuleSync.OtherRulesUntouched` | internal/configsync/apply.go:57-118 | rules of other apps and of no app are unchanged, for any input |
| `AlertRuleSync.MatchingIsFixed` | internal/configsync/apply.go:74-118 | a table that already matches the entries is left exactly as it is |
| `AlertRuleSync.ReconcileIdempotentIff` | internal/configsync/apply.go:52-118 | reconciling twice equals reconciling once iff entries for one rule agree on the switch and that rule is stored already |
| `AlertRuleSync.RulesRoundTrip` | internal/configsync/configsync.go:437-447 | reconcile of the rendered rules is the identity iff every webhook is found by its name and no rule is stored twice |
| `AlertRuleSync.DisagreementFlips` | internal/configsync/apply.go:85-95 | in any list, two entries that disagree about a stored rule flip it at every apply |
| `AlertRuleSync.TwinIsDeletedNextTime` | internal/configsync/apply.go:86-118 | two entries for a rule that is not stored insert two rows, and the next apply deletes the older |
| `AlertRuleSync.ImportRestores` | internal/configsync/configsync.go:656-679 | importing rendered rules over any rows of the app restores the same rules in the same order and touches no other row |
| `AlertRuleSync.RulesImported` | internal/configsync/configsync.go:656-679 | importing any entries leaves exactly the usable ones as the app's rules, in order and repeated ones included, and no other row changes |
| `BackupConfigSync.RunSucceeds` | internal/store/backups.go:212-230 | a run of inserts and updates goes through iff no insert repeats a UUID, stored or inserted earlier |
| `BackupConfigSync.RunIsPrefix` | internal/store/backups.go:212-230 | a run makes exactly the edits before the first clash and stops there |
| `BackupConfigSync.BackupsSucceed` | internal/configsync/apply.go:137-172 | the reconcile fails exactly on such a repeated UUID |
| `BackupConfigSync.FailureDeletesNothing` | internal/configsync/apply.go:137-180 | a reconcile that fails has deleted no configuration |
| `BackupConfigSync.BackupsReconciled` | internal/configsync/apply.go:120-180 | the app's configurations are exactly the entries, the last one per id, under their own or a minted UUID; stored ones keep id and UUID, and their secret unless the secrets file lists one; a stored secret is never blanked |
| `BackupConfigSync.OtherBackupsUntouched` | internal/configsync/apply.go:129-180 | other apps' configurations are unchanged, also when the apply stops half-way |
| `BackupConfigSync.MatchingIsFixed` | internal/configsync/apply.go:137-180 | a table that already matches the entries is left exactly as it is |
| `BackupConfigSync.ReconcileIdempotentIff` | internal/configsync/apply.go:120-180 | a repeated reconcile changes nothing iff every entry has an id or matches a stored row without one, whatever UUIDs are minted |
| `BackupConfigSync.EmptyIdChurns` | internal/store/backups.go:212-215 | the row minted for an entry without an id is deleted by the next apply |
| `BackupConfigSync.BackupsRoundTrip` | internal/configsync/configsync.go:379-397 | reconcile of the rendered configurations and secrets is the identity |
| `BackupConfigSync.ImportRestores` | internal/configsync/configsync.go:681-716 | the import succeeds iff no other app holds one of the UUIDs, and then restores configurations and secrets in order |
| `BackupConfigSync.BackupsImported` | internal/configsync/configsync.go:681-716 | importing any entries succeeds iff no UUID repeats and no other app holds one, and then the configurations are those asked for, in order, under the entry's id or a minted one and with the last listed secret |
| `BackupConfigSync.ImportSparesOthers` | internal/configsync/configsync.go:681-716 | other apps' configurations are unchanged, also when the import fails half-way |
| `BackupConfigSync.EncIsLast` | internal/configsync/apply.go:123-128 | the secret used for an id is the last one listed for it, and empty if there is none |
| `AppSidecars.AccessReplaced` | internal/store/users.go:508-541 | afterwards exactly the known users named have access; other apps' grants stay |
| `AppSidecars.AccessRoundTrip` | internal/configsync/configsync.go:424-427 | replacing an app's grants by the listed usernames changes nothing |
| `AppSidecars.AppReconciled` | internal/configsync/apply.go:24-197 | a successful apply makes rules, configurations, grants and display name agree with the sidecar on the rows already there, entries without an id included |
| `AppSidecars.AgreeingIsFixed` | internal/configsync/apply.go:24-197 | applying a sidecar the database agrees with changes nothing, ids included |
| `AppSidecars.RestUntouched` | internal/configsync/apply.go:24-197 | no other app and nothing global changes, also when the apply fails half-way |
| `AppSidecars.ApplyEnds` | internal/configsync/apply.go:24-197 | no sidecar is a success without effect, an unknown app a failure without effect; a failed or dashboard-only apply leaves grants alone and an empty display name leaves the app row alone |
| `AppSidecars.ApplyIdempotentIff` | internal/configsync/apply.go:24-197 | applying the same sidecar again changes nothing iff its rules and backup entries meet the two conditions above |
| `AppSidecars.AppRoundTrip` | internal/configsync/configsync.go:370-470 | rendering an app and applying it back is the identity on the whole database iff its rules are portable |
| `AppSidecars.UniqueNamesPort` | internal/configsync/configsync.go:414-418 | unique non-empty webhook names and unrepeated rules are enough for that |
| `AppSidecars.ImportRestoresApp` | internal/configsync/configsync.go:629-732 | importing a rendered app after its rows were lost or changed restores rules, configurations, secrets and grants up to ids, and fails exactly on a taken UUID |
| `AppSidecars.AppImported` | internal/configsync/configsync.go:629-732 | any sidecar: an unknown app or named webhook fails and changes nothing; else the rules are those asked for, success is decided by the UUIDs alone, grants are those of the known users named on success unless access is skipped and untouched otherwise, and nothing else changes |
| `AppSidecarSync.IndexNames` | internal/configsync/apply.go:47-50 | the loop builds the name index |
| `AppSidecarSync.IndexRules` | internal/configsync/apply.go:70-73 | the loop builds the key index |
| `AppSidecarSync.IndexBackups` | internal/configsync/apply.go:133-136 | the loop builds the UUID index |
| `AppSidecarSync.IndexSecrets` | internal/configsync/apply.go:123-128 | the last secret per id wins, a missing one reads as empty |
| `AppSidecarSync.CheckHooks` | internal/configsync/configsync.go:648-654 | succeeds iff every named webhook is known |
| `AppSidecarSync.BuildSidecar` | internal/configsync/configsync.go:370-470 | the rendering loops compute the sidecar pair the theorems speak of |
| `AppSidecarSync.Syncer.ApplyRules` | internal/configsync/apply.go:57-118 | the loops over incoming and stored rules compute the reconciled table and change nothing else |
| `AppSidecarSync.Syncer.ApplyBackups` | internal/configsync/apply.go:123-180 | the loops compute the reconciled table, stopping at the first failing insert |
| `AppSidecarSync.Syncer.ReplaceGrants` | internal/store/users.go:511-541 | the loop computes the replaced grants |
| `AppSidecarSync.Syncer.ApplyAppSidecar` | internal/configsync/apply.go:24-197 | the whole apply, with its no-op, its unknown app and its early exits |
| `AppSidecarSync.Syncer.ImportAppSidecar` | internal/configsync/configsync.go:629-732 | the whole import with its early exits and the switch that skips access |
| `Upserts.LastDecides` | internal/store/users.go:543-612 | after a list of upserts the row under a key is made by the last entry for it |
| `Upserts.AllKeepsIds` | internal/store/alerts.go:425-452 | upserts never move a stored row to another id |
| `Upserts.ReplaceMatches` | internal/configsync/apply.go:243-309 | upsert-then-delete leaves exactly the named rows, each made from its old row under its old id |
| `Upserts.PartKept` | internal/store/alerts.go:455-482 | what no entry touches survives in every row |
| `GlobalRoundTrips.GlobalRoundTripIff` | internal/configsync/configsync.go:475-591 | writing the pair and applying it is the identity on the whole database, for any listing order, iff among webhooks of one name the oldest has the type of the newest and the secrets of the newest that has any |
| `GlobalRoundTrips.HooksRoundTripIff` | internal/configsync/configsync.go:547-560 | the webhook part: no rule is deleted, and no webhook changes iff that condition holds |
| `GlobalRoundTrips.OldestBecomes` | internal/configsync/apply.go:244-255 | the oldest webhook of a name becomes what the newest entry and the last secret of that name make |
| `GlobalRoundTrips.UniqueNamesPortable` | internal/configsync/configsync.go:547-560 | unique webhook names meet the condition |
| `GlobalRoundTrips.UsersRoundTrip` | internal/configsync/configsync.go:499-511 | the user part, hashes included, without cascading any key or grant |
| `GlobalRoundTrips.KeysRoundTrip` | internal/configsync/apply.go:311-344 | the API key part, also when labels `username` + bar + `name` collide |
| `GlobalRoundTrips.LastWriterIsOwner` | internal/configsync/apply.go:229-231 | among keys with one label the last writes its own row, which is why collisions are harmless |
| `GlobalRoundTrips.RegistriesRoundTrip` | internal/configsync/configsync.go:532-545 | the registry part, without a name clash |
| `GlobalRoundTrips.RepeatedNameChanges` | internal/configsync/apply.go:244-255 | a database with two webhooks of one name and different URLs is changed by the round trip |
| `GlobalRoundTrips.UsersReconciled` | internal/configsync/apply.go:276-309 | every listed user has one row with the entry's role, display name and email, and with the listed hash given secrets, else the stored one or none; only listed users stay, on their old rows |
| `GlobalRoundTrips.UsersCascade` | internal/configsync/apply.go:276-309 | keys and grants go exactly with the users deleted, and every other key is unchanged |
| `GlobalRoundTrips.HooksReconciled` | internal/configsync/apply.go:243-274 | every listed webhook has one row of the entry's type with URL, headers and template of the last secret listed for it, or of the stored row when there is no secrets file; only listed webhooks stay, on their old rows |
| `GlobalRoundTrips.HooksCascade` | internal/configsync/apply.go:262-274 | rules go exactly with the webhooks deleted, and every other rule is unchanged |
| `GlobalIdempotence.GlobalIsIdempotent` | internal/configsync/apply.go:211-391 | a successful apply with distinct webhook names, usernames and registry ids, repeated, changes nothing in the whole database, with or without secrets |
| `GlobalIdempotence.KeysSettle` | internal/configsync/apply.go:311-344 | the API key part, also when entries share a label or a hash |
| `GlobalIdempotence.RegistriesSettle` | internal/configsync/apply.go:346-376 | the registry part: no name clashes the second time |
| `GlobalRoundTrips.ResolveSucceeds` | internal/store/users.go:582-594 | key entries are all accepted iff every username is known |
| `GlobalRoundTrips.KeysReconciled` | internal/configsync/apply.go:314-344 | the last entry for each hash is stored; stored keys under a listed hash keep their id, others survive unchanged iff their label is listed; new ids only for listed hashes |
| `GlobalRoundTrips.RegistriesReconciled` | internal/configsync/apply.go:346-376 | after a successful apply the registries are exactly those listed, name and URL from the entry, login from the last secret listed for the id, or from the stored row when there is no secrets file |
| `GlobalRoundTrips.RegistriesSucceed` | internal/configsync/apply.go:346-376 | entries with distinct ids are all stored iff none takes the name of an earlier entry or of a stored row not yet rewritten |
| `GlobalRoundTrips.RegistriesUpTo` | internal/configsync/apply.go:354-366 | a failed registry phase has stored the entries before the first name clash and done nothing else |
| `GlobalRoundTrips.KeysUpTo` | internal/configsync/apply.go:314-332 | a failed key phase has stored the entries before the first unknown username and done nothing else |
| `GlobalRoundTrips.GlobalSucceeds` | internal/configsync/apply.go:211-391 | an apply succeeds iff every listed key has a known user, unless there is no secrets file, and no registry name is taken in its turn |
| `GlobalRoundTrips.SettingsReconciled` | internal/configsync/apply.go:378-388 | each setting: the secret one from the secrets file if it has one, any other listed one as listed, and unlisted ones as they were |
| `GlobalRoundTrips.FailureEndsApply` | internal/configsync/apply.go:211-391 | a failed apply has done the webhook and user phases, touches no setting, deletes no registry, and after a failed key phase no key either |
| `GlobalRoundTrips.RedactedKeepsSecrets` | internal/configsync/apply.go:199-309 | without secrets no surviving row changes a secret and surviving users keep exactly their keys, for any public file and also on failure |
| `GlobalSidecarSync.IndexLast` | internal/configsync/apply.go:218-241 | a later secret for the same key replaces an earlier one |
| `GlobalSidecarSync.WriteGlobal` | internal/configsync/configsync.go:475-577 | the writing loops compute the pair the round trip speaks of |
| `GlobalSidecars.SecretsAreThose` | internal/configsync/configsync.go:475-577 | the secrets file names exactly the users with a password hash, and no webhook or registry without a secret |
| `GlobalSidecarSync.GlobalSyncer.ApplyWebhooks` | internal/configsync/apply.go:243-274 | upserts, then deletions with their rules |
| `GlobalSidecarSync.GlobalSyncer.ApplyUserList` | internal/configsync/apply.go:276-309 | upserts, then deletions with their keys and grants |
| `GlobalSidecarSync.GlobalSyncer.ApplyApiKeys` | internal/configsync/apply.go:311-344 | upserts up to the first unknown user, then deletion of unlisted keys user by user |
| `GlobalSidecarSync.GlobalSyncer.ApplyRegistryList` | internal/configsync/apply.go:346-376 | upserts up to the first name clash, then deletion of unlisted registries |
| `GlobalSidecarSync.GlobalSyncer.ApplySettingList` | internal/configsync/apply.go:378-388 | settings are set in any order, the secret one last |
| `GlobalSidecarSync.GlobalSyncer.ApplyGlobalSidecar` | internal/configsync/apply.go:211-391 | the five phases in order, ended by the first failure |
| `DeployTracker.Deployer.RunOperation` | internal/deployer/deployer.go:97-326 | effects of deploy, rollback, restart and pull on every return path |
| `DeployTracker.Deployer.RefuseDeploy` | internal/deployer/deployer.go:341-358 | every complaint is sent in order, then one failed Done |
| `DeployTracker.Deployer.FinishDeploy` | internal/deployer/deployer.go:44-56 | failed, unstable and successful ends |
| `DeployTracker.ReportIsTrue` | internal/deployer/deployer.go:44-358 | for every kind of operation and every course of events the last Done says success iff checks, pull and command succeeded and the project is stable, unstable iff the same but unstable, and the failed action otherwise |
| `DeployTracker.ChecksAreMade` | internal/deployer/deployer.go:97-326 | every operation but a restart checks its compose file first of all, then writes the logins if there are any |
| `DeployTracker.CommandsAreRun` | internal/deployer/deployer.go:97-326 | the compose commands run are none before the checks passed, pull before up, restart alone |
| `DeployTracker.FailureEndsIt` | internal/deployer/deployer.go:44-56 | a failed command is followed by the Done alone, and stabilisation is awaited exactly after a successful last command |
| `DeployTracker.LinesAreComplaints` | internal/deployer/deployer.go:341-358 | the lines sent are the reasons of the refusal, in order, and none if the file was accepted |
| `DeployTracker.RefusalNames` | internal/deployer/deployer.go:341-358 | those reasons are the read error, or one bullet for each broken rule between two fixed lines |
| `DeployTracker.Tracker.TrackWithLog` | internal/deployer/tracker.go:171-183 | refused iff the app has a log; else flight and a fresh log are entered |
| `DeployTracker.Tracker.Cancel` | internal/deployer/tracker.go:148-158 | cancels the app's flight, forgets it, and keeps its log |
| `DeployTracker.Tracker.DoneWithLog` | internal/deployer/tracker.go:191-203 | hands back the app's log and forgets flight and log |
| `DeployTracker.DeployExclusion` | internal/deployer/tracker.go:171-203 | in every interleaving at most one operation per app is between its start and its Done, also after a cancel |
| `DeployTracker.SkippedIffBusy` | internal/deployer/tracker.go:171-183 | an app has a log iff an operation of it is in progress, cancelled or not |
| `DeployTracker.StartOutcome` | internal/deployer/tracker.go:171-183 | a start is refused without a trace iff an operation of that app is in progress, and otherwise has its whole script ahead, a log of its own and the app's flight |
| `DeployTracker.CancelHitsCurrent` | internal/deployer/tracker.go:148-158 | a cancel reaches the operation in progress of that app |
| `DeployTracker.CancellableUntilCancelled` | internal/deployer/tracker.go:148-183 | an operation in progress that was not cancelled is the one a cancel reaches; afterwards it is cancelled, still in progress and keeps its log |
| `DeployTracker.LogClosedByItsOwner` | internal/deployer/tracker.go:191-203 | a log is closed only by the operation it was made for, after its whole script |
| `DeployTracker.AcceptedReachesDone` | internal/deployer/deployer.go:97-358 | an operation in progress can always go on and its log is open; a finished one closed its own log |
| `DeployLogs.DeployLog.Subscribe` | internal/deployer/tracker.go:44-72 | replay of the history up to the buffer; closed at once when the log is over |
| `DeployLogs.DeployLog.Unsubscribe` | internal/deployer/tracker.go:61-70 | removes that subscriber and no other |
| `DeployLogs.DeployLog.Send` | internal/deployer/tracker.go:74-90 | bounded history, non-blocking offer to every subscriber, nothing after close |
| `DeployLogs.DeployLog.CloseWith` | internal/deployer/tracker.go:99-115 | one Done line to history and subscribers, then every channel closed, once |
| `DeployLogs.HistoryIsBounded` | internal/deployer/tracker.go:74-115 | history is the last 10000 lines sent, and after the end one Done line more |
| `DeployLogs.StreamIsFaithful` | internal/deployer/tracker.go:44-115 | a subscriber's stream is an in-order duplicate-free selection of the history it found and the later lines, all of them if its buffer was never full |
| `DeployLogs.SubscriberIsServed` | internal/deployer/tracker.go:44-115 | in every run a subscriber that did not unsubscribe is on the list and up to date while the log is open; when it is over its channel is closed and its last line was the Done line |
| `DeployLogs.LineIsOffered` | internal/deployer/tracker.go:74-115 | a line reaches every listed subscriber that has fewer than 200 waiting, and the end closes its channel |
| `DeployLogs.NeverFullIsComplete` | internal/deployer/tracker.go:44-115 | a subscriber whose buffer was never full has the history it found and every line since, exactly |
| `DeployLogs.GoneStaysGone` | internal/deployer/tracker.go:61-70 | after it unsubscribed a subscriber gets no further line and nobody closes its channel |
| `DeployLogs.NoPanic` | internal/deployer/tracker.go:44-115 | in every state of every run while the log is open, no listed channel is closed and none is listed twice, so no run sends to a closed channel or closes one twice |
| `EventBus.Subscriber.Offer` | internal/events/bus.go:97-114 | send, or drop the oldest, send and mark stale |
| `EventBus.Bus.Subscribe` | internal/events/bus.go:62-67 | one more subscriber, empty and not stale |
| `EventBus.Bus.Cancel` | internal/events/bus.go:68-81 | removes and closes exactly that subscriber, once |
| `EventBus.Bus.Publish` | internal/events/bus.go:88-116 | offers the event to every subscriber whose filter accepts it, and leaves the others alone |
| `EventBus.PublishIsOffer` | internal/events/bus.go:97-114 | a publish in the run theorems is exactly the offer made to a subscriber |
| `EventBus.OfferDropsOldest` | internal/events/bus.go:97-114 | with fewer than 64 events queued one more is added; at 64 the oldest makes way and the subscriber is stale |
| `EventBus.AloneIsAtomic` | internal/events/bus.go:97-114 | the channel operations of a publish, run without interleaving, are that one publish |
| `EventBus.DeliveryInEveryRun` | internal/events/bus.go:88-116 | the queue never exceeds 64; received plus queued events are in order, end in the newest and are complete until the first overflow |
| `EventBus.NoMissedResync` | internal/api/events_ws.go:211-252 | while the socket is open a drop without a later resync frame is flagged with work queued or in hand, or the resync is about to be sent |
| `EventBus.ResyncWithinFive` | internal/api/events_ws.go:232-250 | an owed resync goes out within five steps of the loop, without another event |
| `EventBus.NoNeedlessResync` | internal/api/events_ws.go:232-250 | resync frames sent, flagged or about to be sent are never more than the drops |
| `EventBus.ClientIsSent` | internal/api/events_ws.go:232-250 | every received event is written once and in order, the one in hand excepted, and without an overflow no resync is sent |
| `EventBus.FailedWriteEnds` | internal/api/events_ws.go:244-246 | a failed write is the last step of its loop |
| `EventBus.NoForgottenDrop` | internal/events/bus.go:97-114 | even with publishes split into their channel operations an owed resync is flagged, about to be flagged, or about to be sent |
| `EventBus.NothingVanishes` | internal/events/bus.go:97-114 | however publishers interleave, every accepted event was received, is queued, is held by its publisher or is counted as dropped |
| `EventBus.LateMarkDelaysResync` | internal/events/bus.go:105-113 | a run in which the flag is set on an empty queue and the loop waits with a resync owed |
| `EventBus.ResyncUnlessIdle` | internal/api/events_ws.go:232-250 | in every reachable state with no publisher between a drop and its mark, an owed resync goes out within five steps of the loop iff the loop is not waiting on an empty queue |
| `EndpointKeys.ParseKeyOfKey` | internal/compose/parser.go:113 | the label expression reads back number and field of every printed key |
| `EndpointKeys.ParsesExactly` | internal/compose/parser.go:113 | the label expression matches exactly the prefix, digits, a dot and one of the five field names |
| `EndpointKeys.ParsePrint` | internal/compose/parser.go:362 | parsing a printed number gives the number |
| `EndpointLabels.RemoveEndpointLabels` | internal/api/domain.go:473-483 | keeps exactly the labels without the endpoint prefix, in order |
| `EndpointLabels.GroupByService` | internal/api/domain.go:409-416 | groups and numbers endpoints per service |
| `EndpointLabels.UpdateEndpoints` | internal/api/domain.go:399-451 | every service is stripped and gets the labels of its own endpoints |
| `EndpointLabels.UpdateOutcome` | internal/api/domain.go:399-483 | labels after an update, for each form before: none, a mapping stripped and extended, or a list that keeps its items and gains key and value as two items each |
| `EndpointLabels.ExtractEndpoints` | internal/compose/parser.go:355-392 | the result of visiting the labels in some order: one endpoint per mentioned number, in number order, each field the value of a label that names it |
| `EndpointLabels.ParseEndpoints` | internal/compose/parser.go:265-282 | every endpoint of every service, sorted by domain, number and service |
| `EndpointLabels.MineIsNumbered` | internal/api/domain.go:409-416 | a service's endpoints are numbered from zero without a gap |
| `EndpointLabels.LabelRoundTrip` | internal/api/domain.go:399-483 | writing then extracting gives each service its endpoints in order, whatever labels were there before |
| `EndpointLabels.OtherLabelsStay` | internal/api/domain.go:473-483 | every other label keeps value and place |
| `EndpointLabels.ListFormLosesEndpoints` | internal/api/domain.go:428-450 | written into an empty labels list, endpoints are not read back, so the mapping form is needed |
| `EndpointLabels.AppRoundTrip` | internal/compose/parser.go:265-282 | the parsed app-wide list is the sorted list of what was written, whatever the visiting order |
| `EndpointLabels.DeterminedIffConsistent` | internal/compose/parser.go:355-392 | every order of visits gives the same endpoints iff labels for one field agree |
| `EndpointLabels.VisitExtracts` | internal/compose/parser.go:355-392 | every order of visits gives a faithful reading of the labels |
| `EndpointLabels.OrderIsUnique` | internal/compose/parser.go:269-282 | two ordered lists with the same members are equal |
| `EndpointLabels.SortOrders` | internal/compose/parser.go:272-282 | the sort orders lists with distinct keys |
| `EndpointLabels.SortIsPermutation` | internal/compose/parser.go:272-282 | the sort loses and invents nothing |
| `EndpointLabels.BeforeIs` | internal/compose/parser.go:272-282 | that order is by domain, then number, then service |
| `EndpointLabels.LtIsLexicographic` | internal/compose/parser.go:272-282 | strings are compared at the first character in which they differ, a proper prefix first |
| `NetworkInjection.AttachServiceNetwork` | internal/compose/inject.go:185-219 | attaches one service, and reports a change exactly when there is one |
| `NetworkInjection.InjectServices` | internal/compose/inject.go:28-47 | rewires exactly the services with endpoint labels, in place, with an exact change flag |
| `NetworkInjection.InjectSharedNetwork` | internal/compose/inject.go:16-73 | the whole rewrite, with an exact change flag |
| `NetworkInjection.MarkedExactly` | internal/compose/inject.go:136-164 | a service counts as an endpoint service iff some label, in either form, is accepted by the endpoint expression |
| `NetworkInjection.EndpointPrefixShape` | internal/compose/inject.go:11 | that expression accepts exactly `simpledeploy.endpoints.` followed by digits, a dot and anything |
| `NetworkInjection.WrittenKeyMarks` | internal/compose/inject.go:136-164 | every label the endpoint writer prints marks its service |
| `NetworkInjection.InjectionIsIdempotent` | internal/compose/inject.go:11-73 | a second injection changes nothing |
| `NetworkInjection.AttachUses` | internal/compose/inject.go:185-219 | the service ends up on the network iff its networks value is absent, a list or a mapping |
| `NetworkInjection.AttachLists` | internal/compose/inject.go:185-219 | it gains exactly that network, and `default` exactly when the block had to be created |
| `NetworkInjection.AttachedForm` | internal/compose/inject.go:185-219 | the networks value afterwards, for each form it can have before |
| `NetworkInjection.EndpointServicesAttached` | internal/compose/inject.go:28-47 | every endpoint service is attached, every other service is untouched |
| `NetworkInjection.UsedNetworkDeclared` | internal/compose/inject.go:49-134 | when some service uses the network it is declared iff the top-level block is absent or a mapping; else that block is untouched |
| `NetworkInjection.NewDeclarationIsExternal` | internal/compose/inject.go:110-134 | a declaration that was there stays as it was and a new one is external |
| `NetworkInjection.InjectionOnlyAppends` | internal/compose/inject.go:110-219 | nothing is removed, reordered or rewritten |
| `NetworkInjection.OtherBlocksUntouched` | internal/compose/inject.go:16-73 | every other top-level block is untouched |
| `HostPaths.WithinIsPrefixOrder` | internal/compose/validate.go:723-729 | on clean absolute paths the string test is the prefix order of components |
| `HostPaths.WithinIsTreeOrder` | internal/compose/validate.go:723-733 | it is a partial order in which everything above a path lies on one line |
| `HostPaths.PermittedTarget` | internal/compose/validate.go:614-644 | a permitted bind resolves into the app's folder or to a place that passes every rule |
| `HostPaths.PermittedExactly` | internal/compose/validate.go:614-644 | a bind is permitted iff the path as written and the path it resolves to are free, or in the app's folder; it goes unchecked iff it cannot be placed or resolved |
| `HostPaths.ProtectedExactly` | internal/compose/validate.go:646-702 | a place passes every rule iff it is clear of apps and data folders and of system folders the operator did not allow, read-only log folders excepted |
| `HostPaths.RuleNamed` | internal/compose/validate.go:646-702 | a refused place is refused for the first rule it breaks |
| `HostPaths.BindExposesNothingProtected` | internal/compose/validate.go:614-702 | no path below a permitted target is in another app, a data folder or an unexcepted system folder |
| `HostPaths.CollectBinds` | internal/compose/validate.go:229-258 | the binds of one container, in order |
| `HostPaths.BindsAreCollected` | internal/compose/validate.go:224-258 | the binds judged are exactly those of the volumes, with where they lead and whether they are writable |
| `HostPaths.LayoutViolations` | internal/compose/validate.go:259-283 | every violation once |
| `HostPaths.BindLayoutViolations` | internal/compose/validate.go:224-283 | the whole check over all containers |
| `HostPaths.NoViolationIffGoodLayout` | internal/compose/validate.go:224-283 | nothing is reported iff no writable bind is the app folder and none lies strictly above another bind |
| `Paths.StackTracksWalk` | internal/backup/tarsafe.go:266-270 | the cleaned path starts with `..` iff the component walk goes above its start at some prefix |
| `Paths.CleanIsClean` | internal/compose/validate.go:735-743 | cleaning an absolute path leaves proper components only |
| `Paths.CleanIsIdempotent` | internal/compose/validate.go:735-743 | cleaning a clean path changes nothing |
| `ArchiveNames.TraversalTest` | internal/backup/tarsafe.go:266-270 | the three string tests on a cleaned name see exactly a leading `..` |
| `ArchiveNames.AcceptedNamesStayInside` | internal/backup/tarsafe.go:256-281 | a name is accepted iff it is non-empty, relative, without NUL, its walk never leaves the root at any prefix, and the entry is no link or device |
| `ArchiveNames.FaultNamed` | internal/backup/tarsafe.go:256-281 | each error is given exactly for its own fault, the first in order |
| `ArchiveNames.ValidPathShape` | internal/backup/paths.go:20-53 | accepted paths are exactly clean components, none flag-like, with any number of trailing slashes |
| `ArchiveNames.PathFaultNamed` | internal/backup/paths.go:20-53 | an empty, unprintable, relative or root path is refused by that name, in that order |
| `ArchiveNames.OperandIsSafe` | internal/backup/volume.go:112-122 | the operand of an accepted path is non-empty, relative, not flag-like, passes the restore check and lands on the same path |
| `ArchiveNames.TarCreateArgs` | internal/backup/volume.go:116-122 | the argument list, operands after `--` |
| `ArchiveNames.OperandsAreSafe` | internal/backup/volume.go:116-122 | one operand per path, in order, each safe |
| `RestoreCap.CappedDrain` | internal/backup/tarsafe.go:234-254 | under any chunking and buffers: all bytes and the source's end if they fit, else exactly the first `max` bytes and an error |
| `RestoreCap.PlainDrain` | internal/backup/tarsafe.go:191-206 | without a cap everything comes through |
| `RestoreCap.LimitedStream` | internal/backup/strategy.go:57-121 | a limited stream ends cleanly iff its source does and fits; an oversize one never ends cleanly |
| `RestoreCap.CapReader.ReadChunk` | internal/backup/tarsafe.go:238-254 | one read, with the probe byte at the cap |
| `RestoreCap.SpoolFile.CopyCapped` | internal/backup/tarsafe.go:191-206 | copying through the cap leaves the source or its capped prefix |
| `RestoreCap.SpoolFile.Fill` | internal/backup/tarsafe.go:191-206 | filling succeeds iff the source ends cleanly and fits, and then the spool is the source |
| `BackupPipeline.Pipeline.RunPre` | internal/backup/hooks.go:64-72 | pre-hooks in order up to the first failure |
| `BackupPipeline.Pipeline.RunPost` | internal/backup/hooks.go:74-82 | every post-hook once, whatever fails |
| `BackupPipeline.Pipeline.RunBackup` | internal/backup/pipeline.go:30-64 | result and trace of a backup on every exit |
| `BackupPipeline.Pipeline.FetchArchive` | internal/backup/pipeline.go:66-94 | download, staging and checksum before any hook |
| `BackupPipeline.Pipeline.RunRestore` | internal/backup/pipeline.go:66-110 | result and trace of a restore on every exit |
| `BackupPipeline.BackupHooks` | internal/backup/pipeline.go:30-64 | on every exit: a prefix of the pre-hooks cut only after a failure, then every post-hook exactly once |
| `BackupPipeline.BackupOutcome` | internal/backup/pipeline.go:30-64 | a backup succeeds iff pre-hooks, backup and upload did, else its error names the first that failed, and nothing but post-hooks runs after that |
| `BackupPipeline.RestoreHooks` | internal/backup/pipeline.go:66-124 | the same for restores; a failed download or checksum runs no hook and no restore |
| `BackupPipeline.RestoreOutcome` | internal/backup/pipeline.go:66-110 | a restore succeeds iff every step did, and its error names the first that failed |
| `BackupPipeline.RestoreInOrder` | internal/backup/pipeline.go:66-124 | nothing is restored before the archive is usable or after a failed pre-hook |
| `BackupPipeline.FetchIsRecorded` | internal/backup/pipeline.go:66-94 | download, staging and checksum happen in this order, each exactly when the one before went well |
| `BackupPipeline.NoExecutorNoHooks` | internal/backup/pipeline.go:30-110 | without a hook executor no hook runs |
| `BackupPipeline.HookSucceeds` | internal/backup/hooks.go:84-113 | a hook succeeds iff its action does, never without a command to run or with an unknown type |
| `BackupPipeline.ServiceUpAfterBackup` | internal/backup/hooks.go:84-113 | a service whose last switching post-hook is a working start is up after every backup |
| `BackupPipeline.ServiceUpAfterRestore` | internal/backup/hooks.go:84-113 | the same after every restore that reached its hooks; one that did not left every service as it was |
| `RateLimiting.RateLimiter.Allow` | internal/auth/ratelimit.go:30-56 | one call: sweep of stale buckets, then refill, refuse or spend |
| `RateLimiting.SweepingIsInvisible` | internal/auth/ratelimit.go:36-44 | decisions equal those of a limiter that never forgets a bucket, on every monotone trace |
| `RateLimiting.AllowedExactly` | internal/auth/ratelimit.go:46-55 | in every monotone trace a request is allowed iff its key has no window, or that window is over or has seen fewer than the limit; a refusal does not restart it |
| `RateLimiting.SweptExactly` | internal/auth/ratelimit.go:36-44 | a bucket is swept iff there are more than 100 and it is older than two windows |
| `RateLimiting.WindowBound` | internal/auth/ratelimit.go:46-55 | no window-long interval lets through more than `2 * limit - 1` requests of a key |
| `RateLimiting.WindowBoundIsTight` | internal/auth/ratelimit.go:46-55 | that bound is reached for every limit and every window of two ticks or more |
| `DomainCaching.DomainCache.ReloadLocked` | cmd/simpledeploy/domaincache.go:68-87 | rebuilds the owner map, or keeps it and remembers the error |
| `DomainCaching.DomainCache.Lookup` | cmd/simpledeploy/domaincache.go:41-64 | hit, refresh on miss, error or unknown |
| `DomainCaching.OwnerMapFindsOwners` | cmd/simpledeploy/domaincache.go:75-86 | the map holds exactly the lowest id per lower-case domain |
| `DomainCaching.LookupListsOnce` | cmd/simpledeploy/domaincache.go:41-64 | a lookup lists at most once, and only when the last list call is two seconds old |
| `DomainCaching.ListsWhenNeeded` | cmd/simpledeploy/domaincache.go:41-64 | a lookup lists iff the last list call is ten seconds old, or two and the host is not known |
| `DomainCaching.ListingsAreSpaced` | cmd/simpledeploy/domaincache.go:12-64 | list calls are at least two seconds apart in every run |
| `DomainCaching.HitIsOwner` | cmd/simpledeploy/domaincache.go:41-87 | a hit names the lowest app id for the domain in the last list that succeeded |
| `DomainCaching.AnswerIsExact` | cmd/simpledeploy/domaincache.go:41-87 | with lists that may fail: owner or unknown by the last list that succeeded, the last error before one did |
| `DomainCaching.HostCutsPort` | cmd/simpledeploy/domaincache.go:41-45 | the host looked up is the lower-cased domain up to its first colon |
| `DomainCaching.AnswersAreFresh` | cmd/simpledeploy/domaincache.go:12-64 | while lists succeed every hit agrees with a list under ten seconds old and every miss with one under two |
| `MetricGaps.InsertGaps` | internal/api/metrics.go:54-82 | the loops compute the marked series |
| `MetricGaps.SortedCopySorts` | internal/api/metrics.go:67-69 | the median is taken from a sorted permutation |
| `MetricGaps.GapsKeepSamples` | internal/api/metrics.go:54-82 | deleting the markers gives back the series |
| `MetricGaps.GapsAreOrdered` | internal/api/metrics.go:54-82 | the output stays ordered; each marker is at or after its left neighbour and before its right one |
| `MetricGaps.GapsAreMarked` | internal/api/metrics.go:54-82 | a marker follows a sample, one median later, exactly where the gap exceeds twice the median and one and a half intervals; nothing else is added |
| `MetricGaps.FewMarkers` | internal/api/metrics.go:54-82 | with `g` gaps at most `g - 1 - g / 2` markers |

Smaller consequences are kept beside these results: every return path of a deploy ends in
one Done, only an operation's own steps move it, the written public file never names the
secret setting, and the next event ends a delayed resync.

## Left out

- ConfigStore.Lookup: finds the oldest row of a name; the store's query has no ORDER BY, and a table scan in id order is assumed.
- DebouncedWriter.Write: a failed write leaves its file as it was; a pair of files of which only the first was written is not modelled.
- SQL itself: CHECK constraints, timestamps, transactions and I/O errors of the store; unique indexes, upserts and cascades are modelled.
- Ids after an upsert that finds its row: the model hands out no id then; whether SQLite's counter moves is not modelled.
- Threshold values are real numbers; equality of floating-point NaN in natural keys is not modelled.
- `ImportGlobal`, the redacted export file, archive tombstones, orphan pruning and the sidecar file formats: YAML reading and writing is the identity here.
- Two overlapping writes of one sidecar key: a write (read, render, rename) is one step.
- Order of usernames in a sidecar's access list: grants are a set, so the order cannot matter to an apply.
- Boot order, backfill markers, file watcher and git sync.
- `Scale`, `Teardown`, `Stop`, `Start` and the compose run inside `Deployer.Cancel`: they do not go through the tracker.
- A deployer without a tracker, panics, and the text of log lines other than refusals; the service states carried by a Done line.
- A bus cancel that races a publish already past its copy of the subscriber list: subscribing, cancelling and publishing are separate steps here.
- WebSocket authorization, pings and topic filters; whether a resync frame that was written also arrived.
- EndpointLabels.ParseEndpoints: label numbers too large for a machine integer are read as themselves, not clamped.
- EndpointLabels.UpdateEndpoints: works on values, so YAML comments, styles and in-place node updates are not captured; list-form labels are written as the code writes them but no round trip is claimed for them.
- NetworkInjection.InjectSharedNetwork: works on trees as values, so anchors and aliases are not captured.
- HostPaths.BindReason: resolving symlinks is an abstract function with two laws; parsing of volume driver options, device mounts and capabilities is not modelled.
- ArchiveNames.ValidatePath: strings are characters, so the check for valid UTF-8 has no counterpart.
- RestoreCap.SpoolFile.Fill: write errors of the spool file and rewinding it are not modelled; neither is reading the archive entries between two headers.
- BackupPipeline.Pipeline.RunBackup: timeouts, upload retries, checksums of uploads and retention are not modelled.
- MetricGaps.InsertGaps: times are unbounded integers and the threshold is computed exactly; 64-bit wrap-around and float rounding are not modelled.
- RateLimiting.RateLimiter.Allow: the clock is a natural number and the lock is taken for the whole call.
- HTTP handlers, JWT, bcrypt, AES, S3, Docker, the compose loader, cron and the user interface.
