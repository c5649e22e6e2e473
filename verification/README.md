# Nebraska: update grants, floors, catalogue, mirroring and sessions

Nebraska hands out updates to machines. An administrator keeps a catalogue of packages, channels, floors
and groups; machines check in, are granted a version according to their group's rollout policy and report
progress; a syncer mirrors the channels of an upstream server. This project models that behaviour in Dafny
and proves what the server and its two kinds of clients promise. It has seven parts.

- **Grants and events.** `Runtime` says what each request does to the instance and group tables;
  `RuntimeService` performs the requests statement by statement and is proved equal to it. `RuntimeRuns`
  proves the invariants of every run. `Registrations`, `Verdicts` and `EventVerdicts` say by the rows of the group
  what becomes of a check-in, a check and an event, `SyncerChecks` what a syncer is handed, `ServedVersions`
  which version a granted instance is served, `FirstChecks` how a status history begins, `Bystanders` what other
  instances' requests leave alone. `Rollout` and `RolloutLimits` prove the rollout bound and exactly when it holds,
  `Brake` the safe-mode brake. `SmallFleet` is the setting of the concrete runs.
- **Floor walk.** `Floors` is the channel with its floors and the path a client is led along, `Protocol` the
  client's update rounds against the server, with failing rounds, lost messages, and other instances' requests
  before every message.
- **Catalogue.** `Catalogue` and `AdminService` are the admin requests, `CatalogueRuns` what every sequence
  of them keeps, `CatalogueEffects` which requests are accepted and what they change, `ChannelViews` what the update
  service may rely on in the channels it loads, `Publishing` how a release gets from the administrator to the
  clients, `Cloning` the copying of an application, `PackageFiles` the reconciliation of a package's extra files.
- **Mirroring.** `Manifests` is the reply to a syncer, `Mirrors` and `SyncerService` its processing,
  `MirrorVerdicts` when it succeeds, `Replication` what arrives downstream.
- **Session cache.** `Sessions` and `SessionStore`: reference counts of cached sessions; `SessionValues`: what a
  session remembers and how it ends.
- **GitHub session index.** `GithubIndex` and `GithubSessions`: two maps that must agree.
- **Array parser.** `StringArrays` and `StringArrayParser`: the text format of PostgreSQL arrays (section
  8.15.6 of the PostgreSQL manual).

Where the program updates state in place, a class holds the fields and each method's contract ties the new
state to a function of the old one; the properties are lemmas about those functions and about runs of them.

## How the program is read

- Each request is one atomic step that reads the clock once. The code does not lock across the reads and
  writes of a request, so interleavings inside a request are not covered.
- Times are integers in microseconds. Whether it is office hours, whether a download or one of the syncer's
  database calls succeeds, and the ids and session ids that are drawn are inputs.
- A version is a pair of a numeric core and a prerelease tag, because Go code compares semantic versions
  while the floor queries compare numeric cores only. Build metadata is not modelled.
- The channel inside a group is a value: the target package with its blacklist and the floors in ascending
  order of their cores, as the queries return them. `ChannelViews` proves that the channels of every
  reachable catalogue can be loaded so, and have the shape that the other parts assume.

## Where code and comments differ

- `backend/pkg/api/runtime/instances.go:241-242` says that a status cannot be stored before the first grant.
  The version column of the status history is nullable (`backend/pkg/api/db/migrations/0001_initial.sql:126-134`),
  so an instance whose very first check is refused by a limit gets an on-hold entry without version.
  `FirstChecks.FirstEntryOfEveryRun` says exactly when: a history starts with a grant if and only if the policy
  admits an update at the check that begins it. `FirstChecks.HoldComesFirst` is a run in which it does not.
- `backend/pkg/api/runtime/updates.go:80-81` says that a granted instance is served the granted version. It is served
  the next version of the channel as it is now (`ServedVersions.ServedIsGrantedIff`). The two agree while channel,
  group and version stay as they were at the grant (`ServedVersions.ServedIsGranted`); after the channel moved
  they need not, and completion then records a version that was never installed, see
  `ServedVersions.MovedChannelServesAnother`.
- The rollout bound needs more than fixed limits: the statistics skip rows that were silent for a day, and a
  check-in is not recorded again within five minutes. `RolloutLimits.BoundHoldsIffIntervalsShort` states
  exactly which policies keep the bound.
- A client does not always see every floor, and can be led past its target: `Floors.WalkVisitsEveryFloorIff` says
  exactly when, `ChannelViews.FloorIsSkipped` and `ChannelViews.WalkEndsBeyondTarget` are channels that an
  administrator can set up. For the Flatcar application a plain completion event has no effect, see
  `Protocol.FlatcarNeedsReboot`.
- The client reports no error when a progress report fails, and its error reports can get lost. A server that
  heard of a finished download and nothing more refuses every later check of the client, see
  `Protocol.WedgingRound` and `Protocol.BusyGetsNowhere`.
- A known instance is not granted anything by its first check with unchanged metadata if it was silent for a day,
  or if the server knows it through another application only. `Protocol.ServedIffRemembered` says exactly whom a
  server without limits serves; `FirstChecks.SilentInstanceIsRefused` and `FirstChecks.KnownElsewhereIsRefused`
  are such runs.
- A syncer that holds a grant and asks again is handed the list for the present target, but its row keeps the version of
  the first grant, because a status that is already there is not written (`SyncerChecks.SyncerIsGrantedTarget`).
- A syncer that cannot look up a package takes it for unknown (`backend/pkg/syncer/syncer.go:360-381`). If it is
  known after all, creating it must fail, and the clean-up removes the hosted files of the package that is there:
  `Mirrors.FailedLookupLosesFiles`.
- The team-wide steal of the GitHub index can miss sessions: `GithubIndex.TeamStealIsCompleteIff` says after which
  histories, `GithubIndex.SecondSessionSurvives` is one.
- A session that is shared before its first save ends in a panic: `Sessions.FirstSavePanicsIff` says exactly when,
  `Sessions.SharedUnsavedSessionPanics` is such a run.

## Model

| member | source | states |
|---|---|---|
| `Floors.InRangeFloors` | backend/pkg/api/internal/dbreads/packages_floors.go:87-141 | the floor query returns exactly the channel's floors whose numeric core lies after the instance's and not after the target's |
| `Floors.PackagesForUpdate` | backend/pkg/api/runtime/updates.go:322-345 | the list for an update is never empty and ends with the target |
| `Floors.FirstPackageIgnoresCap` | backend/pkg/api/runtime/updates.go:95-147 | the version handed to a regular client does not depend on the cap on floors per response |
| `Floors.Walk` | backend/pkg/api/runtime/updates.go:95-147 | following the offered versions ends, and there is something to follow exactly for a client behind the target |
| `Floors.WalkAscends` | backend/pkg/api/runtime/updates.go:95-147 | the versions a client is led through strictly ascend and lie after its own |
| `Floors.StopsAreFloorsAndTarget` | backend/pkg/api/internal/dbreads/packages_floors.go:87-141 | the stops that the floor policy requires are exactly the floors between client and target by semantic version, and the target |
| `Floors.WalkVisitsEveryFloorIff` | backend/pkg/api/runtime/updates.go:322-345 | a client is led through all required stops, in order and none skipped, if and only if the numeric order of the query and the semantic version order agree on the way ahead |
| `RuntimeService.Service.UpsertInstanceApplication` | backend/pkg/api/runtime/instances.go:88-94 | a check-in sets group, version and check time of a known row and leaves its progress alone |
| `RuntimeService.Service.RegisterInstance` | backend/pkg/api/runtime/instances.go:26-150 | which tables a registration writes, and that the caller sees the row of before the write when just one table needs writing |
| `Registrations.RegistrationRecords` | backend/pkg/api/runtime/instances.go:26-150 | a registration records the metadata, keeping what the client leaves empty, and the check-in unless the row is up to date within five minutes; what the caller sees of it; nothing else changes |
| `Registrations.FakeIsBracedUuid` | backend/pkg/api/internal/dbreads/instances.go:276 | the instances that the statistics leave out are those whose id matches the query's LIKE pattern |
| `RuntimeService.Service.UpdateInstanceData` | backend/pkg/api/runtime/instances.go:211-259 | the new row and its history entry for a grant or a status; nothing when the status is the one already seen |
| `RuntimeService.Service.UpdateInstanceStatus` | backend/pkg/api/runtime/instances.go:202-209 | read the instance again, then write the status |
| `RuntimeService.Service.EnforceRolloutPolicy` | backend/pkg/api/runtime/updates.go:241-296 | which limit refuses a grant, in the program's order, and what a refusal writes: on hold, and the brake for too many timeouts |
| `Verdicts.CheckVerdict` | backend/pkg/api/runtime/updates.go:241-296 | for a registered, visible instance that is not updating and has something to be offered: granted, or refused by disabled updates or office hours, by the period, the concurrent or the timed-out limit, each if and only if the rows of the group say so, for checks of both kinds |
| `Verdicts.AnswerIsRecorded` | backend/pkg/api/runtime/updates.go:241-296 | after a regular check the row holds a grant for the next version of the channel, or is on hold, or for disabled updates is as it was, and no other row changes |
| `Verdicts.GrantsNeedChances` | backend/pkg/api/runtime/updates.go:244-250 | over every run an instance gets at most one grant per check that it makes while its group has updates enabled and, if the policy asks for it, in office hours |
| `RuntimeService.Service.GetUpdatePackage` | backend/pkg/api/runtime/updates.go:19-148 | outcome and new tables of a regular update check, every branch |
| `Verdicts.NotRegisteredIff` | backend/pkg/api/runtime/updates.go:19-28 | a check fails to register exactly for an invalid version or an unknown group, and then changes nothing |
| `Verdicts.NothingToOfferIff` | backend/pkg/api/runtime/updates.go:37-115 | exactly when a registered instance is told that there is no package, or no update for it, by a check of either kind |
| `Verdicts.GrantIsServedOrEnds` | backend/pkg/api/runtime/updates.go:45-92 | a regular check of an instance with a grant serves it and changes nothing more, or completes it at the granted version |
| `RuntimeService.Service.GetUpdatePackagesForSyncer` | backend/pkg/api/runtime/updates.go:151-236 | outcome and new tables of a syncer's update check |
| `SyncerChecks.GrantedSyncerGetsList` | backend/pkg/api/runtime/updates.go:188-235 | every granted check of a syncer hands out the floors of the channel in range, ascending, and at the end the target; a floor is missing only if the cap is reached, and then lies no lower than those sent |
| `SyncerChecks.SyncerIsGrantedTarget` | backend/pkg/api/runtime/updates.go:205-235 | afterwards the syncer's row holds a grant for the target, unless it held one already, which stays as it was |
| `Verdicts.SyncerAnswerIsRecorded` | backend/pkg/api/runtime/updates.go:205-235 | what a syncer's check leaves in its row, for a grant of the target and for every refusal |
| `RuntimeService.Service.RegisterEvent` | backend/pkg/api/runtime/events.go:13-81 | outcome and new tables of an event, with the error order |
| `EventVerdicts.EventAnswerIff` | backend/pkg/api/runtime/events.go:13-81 | which events are accepted, and which error the others get, by the rows and the event alone |
| `EventVerdicts.EventIsRecorded` | backend/pkg/api/runtime/events.go:86-159 | the row of the instance after every kind of accepted event, with status, version, progress and history; a refused event changes nothing except for the Flatcar reset |
| `RuntimeService.Service.TriggerEventConsequences` | backend/pkg/api/runtime/events.go:86-159 | the status an event leads to, the end of a rollout, and the brake on the first failed attempt |
| `EventVerdicts.RolloutAfter` | backend/pkg/api/runtime/events.go:97-143 | for a fleet of any size and every step: a rollout begins exactly with a grant, and ends exactly with an accepted completion after which every instance of the group runs the granted target and none is updating, or with a first attempt that failed where that disables updates |
| `RuntimeService.Service.DisableUpdates` | backend/pkg/api/runtime/groups.go:37-48 | only this group's override is set, to false |
| `RuntimeService.Service.ClearUpdatesEnabledOverride` | backend/pkg/api/runtime/groups.go:12-32 | the override of an existing group is removed and nothing else changes |
| `RuntimeService.Service.SetGroupRolloutInProgress` | backend/pkg/api/runtime/groups.go:52-63 | only this group's rollout flag changes |
| `Verdicts.SettingsAfter` | backend/pkg/handler/admin/groups.go:50-103 | no request of a client changes a group's policy or channel; a group has those an administrator gave it last |
| `RuntimeRuns.RunsKeepDbOk` | backend/pkg/api/runtime/instances.go:211-259 | the row invariant holds in every state a run can reach |
| `RuntimeRuns.InProgressExactly` | backend/pkg/api/runtime/events.go:26-31 | in every reachable state an update is in progress exactly in the four states between grant and completion, and then granted version and time are known |
| `RuntimeRuns.RefusedAsBusyIff` | backend/pkg/api/runtime/updates.go:30-35 | in every reachable state a check of either kind is refused as busy exactly when the registered instance is on record as downloading, downloaded or installed, so never without an update in progress |
| `RuntimeRuns.GrantedVersionAlwaysKnown` | backend/pkg/api/runtime/updates.go:85-92 | the fallback for a granted instance without a granted version cannot run |
| `RuntimeRuns.HistoryOfEveryRun` | backend/pkg/api/runtime/instances.go:221-259 | the status history of every instance in every run: how it starts, no status twice in a row, it ends with the row's status, and download and install entries only in a segment opened by a grant of the same version |
| `RuntimeRuns.SegmentStart` | backend/pkg/api/runtime/instances.go:221-259 | from any in-progress entry one gets back to the grant that opened its segment |
| `FirstChecks.FirstEntryIff` | backend/pkg/api/runtime/updates.go:241-296 | a check of either kind that begins a history writes one entry: a grant if and only if the policy admits an update for the registered instance, else a hold without version |
| `FirstChecks.FirstEntryOfEveryRun` | backend/pkg/api/runtime/instances.go:221-259 | every history of every run was begun by a check of the instance itself, and starts with a grant if and only if the policy admitted an update at that moment |
| `FirstChecks.HoldComesFirst` | backend/pkg/api/runtime/instances.go:241-242 | in a group that admits one update, the history of the second instance that asks is one hold without version |
| `ServedVersions.ServedIsGrantedIff` | backend/pkg/api/runtime/updates.go:80-147 | a granted instance is served the granted version if and only if that version is ahead of it and the next one of the channel as it is now, and the target is not blacklisted for the channel |
| `ServedVersions.ServedIsGranted` | backend/pkg/api/runtime/updates.go:80-81 | over every run in which the channel and the instance's group and version stay, whatever other instances and administrators do, the served version is the granted one |
| `ServedVersions.AfterGrant` | backend/pkg/api/runtime/updates.go:121-147 | such a run may start right after any new grant |
| `ServedVersions.MovedChannelServesAnother` | backend/pkg/api/runtime/updates.go:80-81 | a run in which the channel moves after the grant: another version is served, and completion records the granted one |
| `Bystanders.ForeignRun` | backend/pkg/api/runtime/instances.go:88-94 | whatever other instances request, and whatever is done to other groups, an instance's row stays as it is, and so does a group without limits except for its rollout flag |
| `Rollout.RolloutBound` | backend/pkg/api/runtime/updates.go:241-296 | with fixed membership and limits and short intervals, over every run the grants of the period and the updates in progress each stay within the limit |
| `Rollout.GrantKeepsLimit` | backend/pkg/api/runtime/updates.go:267-292 | a grant that the policy lets through leaves both uncut counts within the limit |
| `Rollout.SafeModeGrantIsAlone` | backend/pkg/api/runtime/updates.go:265-271 | after a safe-mode grant without an ended attempt each count is at most one |
| `RolloutLimits.BoundHoldsIffIntervalsShort` | backend/pkg/api/internal/dbreads/groups.go:237-264 | for every limit, with or without safe mode and whether or not updates are enabled at first, the bound holds over all runs if and only if both intervals end five minutes before a row falls silent; otherwise there is a run that exceeds the limit |
| `Brake.GroupHandler.UpdateGroup` | backend/pkg/handler/admin/groups.go:50-103 | new group row, response code and the flag shown; in single mode re-enabling releases the brake |
| `Brake.GroupHandler.ClearGroupUpdatesOverride` | backend/pkg/handler/runtime/groups.go:68-91 | only a distributed deployment has the explicit release |
| `Brake.OverrideAfter` | backend/pkg/handler/admin/groups.go:82-90 | the override after any step: false exactly when the step trips the brake, none exactly when it releases it, otherwise as before |
| `Brake.OverrideNeverOn` | backend/pkg/api/runtime/groups.go:34-48 | no run ever forces updates on |
| `Brake.OneSwitch` | backend/pkg/handler/admin/groups.go:82-90 | in single mode, after a group update the effective flag is the requested one, whatever happened before |
| `Brake.GrantNeedsUpdatesEnabled` | backend/pkg/api/runtime/updates.go:244-250 | every grant is one grant more for the instance that asks, and answers a check for a group in which updates are enabled at that moment, made in office hours if the policy asks for that |
| `Brake.BrakeHolds` | backend/pkg/handler/runtime/groups.go:68-91 | in a distributed deployment a tripped brake stays, and no instance that asks for the group gets a grant, over every run without the explicit release |
| `Protocol.Updater.CheckForUpdates` | updater/updater.go:206-220 | the answer to an update check as the client sees it, after whatever others did before it, also when request or reply is lost |
| `Protocol.Updater.ReportProgress` | updater/updater.go:222-238 | a progress report changes the server's tables like the event it sends, after whatever others did before it, unless the request is lost; it fails exactly when a message is lost or the track resolves to no group |
| `Protocol.Updater.TryUpdate` | updater/updater.go:307-348 | one update round among the requests of others: result, client version and server tables, also when fetching or applying fails or messages get lost |
| `Protocol.GoodRound` | updater/updater.go:307-348 | a round in which everything works takes the client to the next version, and the server's row says the same, whatever other instances do between its messages |
| `Protocol.FailedRound` | updater/updater.go:325-348 | any other round that does not wedge leaves the client where it is and the server ready to offer the same version again |
| `Protocol.WedgingRound` | updater/updater.go:332-348 | a round after which the server knows of the finished download only leaves its row in the downloaded state |
| `Protocol.BusyGetsNowhere` | backend/pkg/api/runtime/updates.go:30-35 | from a row in the downloaded state no sequence of rounds, whenever and however they go and whatever others do in between, gets the client an update |
| `Protocol.ClientWalks` | updater/updater.go:307-348 | over any mix of good and failing rounds, with any requests of other instances before each message and for any cap of at least one, the client visits the floor walk in order, one stop per good round before the first that wedges; after each good round the server's row says the client's version |
| `Protocol.EveryFloorVisitedIff` | backend/pkg/api/runtime/updates.go:95-147 | after enough good rounds, whatever failed and whatever others did in between, the client has visited exactly the required stops in ascending order, is at the target and is offered nothing more, if and only if the two version orders agree |
| `Protocol.FlatcarNeedsReboot` | backend/pkg/api/runtime/events.go:92-97 | for Flatcar a round with a plain completion leaves the row in the downloaded state and the next check is refused |
| `Protocol.ServedIffRemembered` | backend/pkg/api/runtime/instances.go:99-110 | a server without limits serves an instance behind the target if and only if its row is servable and it is not a known instance with unchanged metadata that was silent for a day or has no row for this application yet |
| `Protocol.FirstCheckAfterSilence` | backend/pkg/api/runtime/instances.go:99-110 | the check of such an instance fails under every policy and only records the check-in |
| `FirstChecks.SilentInstanceIsRefused` | backend/pkg/api/runtime/instances.go:99-110 | a run that leads to such a check: it is refused, and asking once more at the same moment is granted |
| `FirstChecks.KnownElsewhereIsRefused` | backend/pkg/api/runtime/instances.go:99-110 | an instance that is known through another application only is refused by its very first check here, and served by the next |
| `AdminService.Admin.AddPackage` | backend/pkg/api/admin/packages.go:45-102 | errors in order, and on success the package and exactly its blacklist rows |
| `CatalogueEffects.AddPackageAcceptedIff` | backend/pkg/api/admin/packages.go:45-102 | a package is added exactly when its row and blacklist keep the catalogue sound, its architecture is valid and shared by the blacklisted channels and its other data can be stored; then the row and the blacklist are written and nothing else |
| `AdminService.Admin.UpdatedBlacklist` | backend/pkg/api/admin/packages.go:351-415 | the two loops fail exactly when a newly blacklisted channel is unknown, points at the package or has it as a floor; otherwise the package's blacklist is the requested one |
| `AdminService.Admin.UpdatePackage` | backend/pkg/api/admin/packages.go:208-293 | the possible errors, rollback on each, and the new rows on success |
| `CatalogueEffects.UpdatePackageAcceptedIff` | backend/pkg/api/admin/packages.go:208-293 | a package is updated exactly when the new row and blacklist keep the catalogue sound and its other data can be stored; then these are written and nothing else |
| `CatalogueEffects.PackageErrorsAreTrue` | backend/pkg/api/admin/packages.go:45-102 | the error of a refused package request names something that is wrong with it |
| `AdminService.Admin.DeletePackage` | backend/pkg/api/admin/packages.go:297-341 | a floor is not deleted; a deleted package is cleared from channels and blacklists |
| `CatalogueEffects.DeletePackageTakes` | backend/pkg/api/admin/packages.go:297-341 | a package is deleted exactly when it exists and is no floor; channels that point at it are cleared, its blacklist rows go, and everything else stays |
| `AdminService.Admin.ValidatePackage` | backend/pkg/api/admin/channels.go:111-129 | the first reason why a channel may not point at a package |
| `AdminService.Admin.AddChannel` | backend/pkg/api/admin/channels.go:10-37 | outcome and new row, with the checks of the table on name and keys |
| `CatalogueEffects.AddChannelAcceptedIff` | backend/pkg/api/admin/channels.go:10-37 | a channel is added exactly when its row keeps the catalogue sound and the package does not blacklist the id sent along; then exactly this row is written |
| `CatalogueEffects.NewChannelErrorIsTrue` | backend/pkg/api/admin/channels.go:10-37 | the error of a refused channel names something that is wrong with it |
| `AdminService.Admin.UpdateChannel` | backend/pkg/api/admin/channels.go:41-83 | outcome and new row, with the checks of the table; application and architecture stay |
| `CatalogueEffects.UpdateChannelAcceptedIff` | backend/pkg/api/admin/channels.go:41-83 | a channel is updated exactly when the row with the new name and package keeps the catalogue sound; then it has this name and package, keeps application and architecture, and every other row of every table stays |
| `CatalogueEffects.ChannelErrorIsTrue` | backend/pkg/api/admin/channels.go:41-83 | the error of a refused update names something that is wrong with it |
| `Publishing.UpdatedChannelShows` | backend/pkg/api/admin/channels.go:53-58 | after a successful update every view of the channel that the update service can load has the requested package with its version on record as target, no target when none was requested, and the same floors as before |
| `Publishing.TargetIsLastPublished` | backend/pkg/api/admin/channels.go:53-58 | over every sequence of admin requests the target of a channel's view is the package published last through the channel, unless that was deleted since |
| `Publishing.PublishedIsReached` | backend/pkg/api/runtime/updates.go:95-147 | when the version orders agree on the way ahead, a client behind the package published last is led to that package's version |
| `AdminService.Admin.DeleteChannel` | backend/pkg/api/admin/channels.go:86-106 | a deleted channel takes its floors and blacklist rows along and is cleared from groups |
| `CatalogueEffects.DeleteChannelTakes` | backend/pkg/api/admin/channels.go:86-106 | an existing channel goes with its floors and blacklist rows, groups that subscribe to it are cleared, and everything else stays |
| `AdminService.Admin.AddChannelPackageFloor` | backend/pkg/api/admin/packages_floors.go:13-73 | errors in order; marking again only replaces the reason |
| `CatalogueEffects.AddFloorAcceptedIff` | backend/pkg/api/admin/packages_floors.go:13-73 | a floor is marked exactly when the package fits the channel: same application and architecture, not blacklisted |
| `CatalogueEffects.FloorErrorIsTrue` | backend/pkg/api/admin/packages_floors.go:13-73 | the error of a refused floor names something that is wrong with it |
| `Publishing.MarkedFloorShows` | backend/pkg/api/internal/dbreads/packages_floors.go:87-141 | a floor that was marked is among the floors of every view of the channel, with its version |
| `AdminService.Admin.RemoveChannelPackageFloor` | backend/pkg/api/admin/packages_floors.go:122-149 | exactly this floor is removed |
| `Publishing.UnmarkedFloorIsGone` | backend/pkg/api/internal/dbreads/packages_floors.go:87-141 | after the removal no view of the channel has it |
| `AdminService.Admin.AddGroup` | backend/pkg/api/admin/groups.go:13-61 | outcome and new row, with the checks of the table on name, limit and intervals; the track defaults to the id |
| `CatalogueEffects.AddGroupAcceptedIff` | backend/pkg/api/admin/groups.go:13-61 | a group is added exactly when its row keeps the catalogue sound, with its own id as track if none is given |
| `AdminService.Admin.UpdateGroup` | backend/pkg/api/admin/groups.go:65-117 | outcome and new row, with the checks of the table; the application stays |
| `CatalogueEffects.UpdateGroupAcceptedIff` | backend/pkg/api/admin/groups.go:65-117 | a group is updated exactly when its new row keeps the catalogue sound; it stays with its application |
| `CatalogueEffects.GroupErrorsAreTrue` | backend/pkg/api/admin/groups.go:13-117 | the error of a refused group request names something that is wrong with it |
| `CatalogueEffects.DeleteGroupTakes` | backend/pkg/api/admin/groups.go:120-139 | an existing group goes, and everything else stays |
| `AdminService.Admin.AddApp` | backend/pkg/api/admin/applications.go:13-33 | an application needs a name that its team does not use yet |
| `CatalogueEffects.AddAppAcceptedIff` | backend/pkg/api/admin/applications.go:13-33 | an application is added exactly when its row keeps the catalogue sound |
| `AdminService.Admin.UpdateApp` | backend/pkg/api/admin/applications.go:115-147 | renaming keeps the team's names apart and everything else as it is |
| `CatalogueEffects.UpdateAppAcceptedIff` | backend/pkg/api/admin/applications.go:115-147 | an application is renamed exactly when its new row keeps the catalogue sound |
| `AdminService.Admin.DeleteApp` | backend/pkg/api/admin/applications.go:150-169 | an application goes with its packages, channels and groups and everything that refers to them |
| `CatalogueEffects.DeleteAppTakes` | backend/pkg/api/admin/applications.go:150-169 | an existing application goes with its packages, channels, groups and what refers to them, and everything else stays |
| `CatalogueEffects.KeysAreUnique` | backend/pkg/api/db/migrations/0007_add_package_arch.sql:9-15 | in a reachable catalogue no two packages share application, version and architecture, no two channels application, name and architecture, no two groups application and name; groups have a name, intervals, a positive limit and a known time zone for office hours |
| `CatalogueEffects.NewKeysAreAccepted` | backend/pkg/api/db/migrations/0007_add_package_arch.sql:9-15 | and nothing else has to differ: rows with a new key are accepted |
| `CatalogueRuns.BlacklistAfterUpdate` | backend/pkg/api/admin/packages.go:351-415 | after a successful package update exactly the requested channels are blacklisted, none of them served by the package |
| `CatalogueRuns.RunsKeepConsistent` | backend/pkg/api/admin/channels.go:111-129 | over every sequence of admin requests a channel's package and floors share its application and architecture and do not blacklist it, group channels are in the group's application, and keys are unique |
| `CatalogueRuns.PackageDeletedIff` | backend/pkg/api/admin/packages.go:297-341 | a package goes away exactly when it is deleted while it is no floor, or with its application |
| `CatalogueRuns.FloorUnmarkedIff` | backend/pkg/api/admin/packages_floors.go:122-149 | a floor is unmarked exactly by its removal or with its channel or application |
| `ChannelViews.ReachableChannelsAreWellFormed` | backend/pkg/api/internal/dbreads/packages_floors.go:87-141 | the channels of every reachable catalogue meet the assumptions of the floor walk |
| `ChannelViews.EveryChannelShows` | backend/pkg/api/internal/dbreads/packages_floors.go:87-141 | each channel of a reachable catalogue can be loaded, its floors in ascending order of their cores |
| `ChannelViews.FloorIsSkipped` | backend/pkg/api/internal/dbreads/packages_floors.go:87-141 | five admin requests set up a channel whose floor a client on a prerelease of the floor's version never sees |
| `ChannelViews.WalkEndsBeyondTarget` | backend/pkg/api/internal/dbreads/packages_floors.go:87-141 | five admin requests set up a channel that leads a client past a target that is a prerelease of the floor's version |
| `ChannelViews.OfferedIsNeverBlacklisted` | backend/pkg/api/runtime/updates.go:107-115 | no package that a reachable channel offers blacklists that channel |
| `ChannelViews.GrantedGuardUnreachable` | backend/pkg/api/runtime/updates.go:52-57 | the blacklist guard of granted instances cannot fire |
| `ChannelViews.CheckGuardUnreachable` | backend/pkg/api/runtime/updates.go:110-115 | the blacklist guard of a regular check cannot fire |
| `ChannelViews.SyncerGuardUnreachable` | backend/pkg/api/runtime/updates.go:197-203 | the blacklist guard of a syncer's check cannot fire |
| `Cloning.AddAppCloning` | backend/pkg/api/admin/applications.go:38-84 | fails exactly when the application cannot be added, such as for a taken name; otherwise how far the copy gets: on a consistent catalogue only an outage stops it, and what was copied by then is a prefix |
| `Cloning.CompleteCopyIsIsomorphic` | backend/pkg/api/admin/applications.go:53-79 | a complete copy has a bijective id map, copied groups subscribe to the images of their channels, copied channels have no package, and everything that was there is unchanged |
| `Cloning.RunsKeepNamesOk` | backend/pkg/api/db/migrations/0007_add_package_arch.sql:9-15 | over every sequence of admin requests names are unique per application and attributes valid, which is why the copy is accepted |
| `PackageFiles.FileTable.UpdatePackageFiles` | backend/pkg/api/admin/packages.go:424-501 | fails exactly when a requested file has no name and then changes nothing; otherwise every request has its row, kept when it names one, and other packages' files are untouched |
| `PackageFiles.ReconciledIsMultisetEqual` | backend/pkg/api/admin/packages.go:424-501 | afterwards each content is stored as often as it was requested, even with repeated or unknown ids |
| `PackageFiles.SavingUnchangedFilesKeepsRows` | backend/pkg/api/admin/packages.go:435-446 | saving what is there changes no row |
| `Manifests.BuildSyncerReply` | backend/pkg/omaha/omaha.go:357-395 | the reply to a syncer: one flagged manifest per package, nothing for floors without multi-manifest support, an internal error for a Flatcar package without action |
| `MirrorVerdicts.ReplyIff` | backend/pkg/omaha/omaha.go:357-395 | when the reply is none, an error or a list, and that a list has the version, floor flag and target flag of each package in its place |
| `MirrorVerdicts.UnreadableSizeIsZero` | backend/pkg/omaha/omaha.go:276-283 | a size that is no 64-bit number is sent as zero |
| `Manifests.FormatThenParse` | backend/pkg/omaha/omaha.go:276-283 | a size survives being written and read |
| `SyncerService.Syncer.CleanupDownloadedFiles` | backend/pkg/syncer/syncer.go:347-357 | exactly the named files are removed |
| `SyncerService.Syncer.ProcessExtraFiles` | backend/pkg/syncer/syncer.go:706-742 | the extra files and what is on disk, after success and after a failed download |
| `SyncerService.Syncer.CreatePackage` | backend/pkg/syncer/syncer.go:412-490 | the stored package and the package directory, for every way to fail |
| `SyncerService.Syncer.GetOrCreatePackage` | backend/pkg/syncer/syncer.go:360-381 | a known package is checked for several manifests only; one that is unknown, or cannot be looked up, is created |
| `SyncerService.VerifyPackageIntegrity` | backend/pkg/syncer/syncer.go:384-409 | what makes a known package acceptable |
| `SyncerService.Syncer.MarkPackageAsFloor` | backend/pkg/syncer/syncer.go:558-584 | the floor and its reason, or a failure that changes nothing: for an unusable package, or of the database |
| `SyncerService.Syncer.UpdateChannelToPackage` | backend/pkg/syncer/syncer.go:530-555 | the channel's package and the tracked version move together or, for an unusable package or without the database, not at all |
| `SyncerService.FindTarget` | backend/pkg/syncer/syncer.go:615-643 | the two loops find the documented target version |
| `SyncerService.Syncer.ProcessMultiManifestUpdate` | backend/pkg/syncer/syncer.go:610-702 | the whole multi-manifest update for any number of manifests, ending at the first failure of a lookup, creation, mark or move |
| `SyncerService.Syncer.ProcessUpdate` | backend/pkg/syncer/syncer.go:302-340 | dispatch by the number of manifests; a single one marks no floor |
| `Mirrors.TargetIsDocumented` | backend/pkg/syncer/syncer.go:594-597 | the target is the first manifest flagged as target, else the last that is no floor |
| `Mirrors.UpdateOutcome` | backend/pkg/syncer/syncer.go:586-702 | success installs what is missing, marks the flagged floors and moves channel and tracked version to the target if there is one; a failure moves no channel and no tracked version |
| `MirrorVerdicts.UpdateSucceedsIff` | backend/pkg/syncer/syncer.go:610-702 | an update with several manifests succeeds if and only if every package is known and agrees or can be created, every flagged floor can be marked, and the channel can be moved to the version that the reply heads for |
| `MirrorVerdicts.SingleUpdateSucceedsIff` | backend/pkg/syncer/syncer.go:302-340 | the same for an update with one manifest |
| `Mirrors.MarksAreFloors` | backend/pkg/syncer/syncer.go:660-667 | the floors marked are exactly the manifests flagged floor |
| `Mirrors.CreateIsAllOrNothing` | backend/pkg/syncer/syncer.go:412-490 | success with hosting adds exactly the payload and one file per extra package; a failure leaves the directory as it was exactly when nothing it fetched was there already |
| `Mirrors.StoredIsIntact` | backend/pkg/syncer/syncer.go:384-409 | the integrity check accepts what package creation stored |
| `Mirrors.RetryChangesNothing` | backend/pkg/syncer/syncer.go:360-381 | processing a successful update of any number of manifests again, while the database answers, succeeds and changes nothing on record or on disk, whatever the downloads |
| `Mirrors.AbortThenSuccess` | backend/pkg/syncer/syncer.go:610-702 | a run aborted anywhere, at a lookup, a creation, a floor mark or the channel move, and then a successful one end in the same catalogue as a single successful run |
| `Mirrors.FailedLookupLosesFiles` | backend/pkg/syncer/syncer.go:360-381 | a known package whose lookup fails cannot be created again, and after a complete download its hosted files are gone; otherwise a known package is left alone |
| `Replication.ReplicatedFloorsIff` | backend/pkg/omaha/omaha.go:357-395 | from server to mirror: when a syncer's check is granted and the reply is processed with success, the downstream channel points at the upstream target, and exactly the upstream floors in the numeric range between syncer and target are marked if and only if the cap cut nothing and the target is not the only floor sent |
| `Replication.SemanticFloorsReplicatedIff` | backend/pkg/omaha/omaha.go:357-395 | from server to mirror: the floors marked downstream are exactly those after the syncer's version and up to the target by semantic version, if and only if no floor hides behind the syncer's core, the floors that the cap lets through are those not beyond the target, and the target is not the only floor sent |
| `MirrorVerdicts.ContentsReplicated` | backend/pkg/syncer/syncer.go:412-490 | after a success every package of the reply that was unknown is stored with the upstream checksum, size, action and extra files, renamed if the mirror hosts files; known packages are as they were |
| `MirrorVerdicts.ReasonsReplicated` | backend/pkg/syncer/syncer.go:558-584 | every floor of a reply with several packages is marked downstream with its upstream reason, or the documented default |
| `Replication.WelcomeUpdateSucceeds` | backend/pkg/syncer/syncer.go:610-702 | an update whose manifests are complete, of different versions and in conflict with nothing is processed with success when no download or database call fails |
| `Replication.SecondRunRecovers` | backend/pkg/syncer/syncer.go:302-340 | whatever becomes of a first run of such an update, and wherever it is aborted, a second run in which nothing fails succeeds and leaves the same catalogue as if it had been the only one |
| `Replication.MirrorOffersTheSame` | backend/pkg/omaha/omaha.go:272-329 | a mirror that does not host files offers the same manifest as it was offered |
| `SessionStore.MemCache.GetSessionUseByID` | backend/pkg/sessions/memcache/memcache.go:52-74 | a marked session is not opened; an opened one has its use counted; it panics exactly when the values of an unmarked session cannot be copied |
| `SessionStore.MemCache.PutSessionUse` | backend/pkg/sessions/memcache/memcache.go:77-87 | the new count, the removal with the last use of a marked session, and when it panics |
| `SessionStore.MemCache.MarkOrDestroySessionByID` | backend/pkg/sessions/memcache/memcache.go:90-98 | marked while in use, removed otherwise |
| `SessionStore.MemCache.SaveSession` | backend/pkg/sessions/memcache/memcache.go:121-154 | what a first and a later save store, also when copying fails |
| `SessionStore.Session.Save` | backend/pkg/sessions/session.go:91-121 | cache, session object and cookie after a save |
| `SessionStore.Session.Mark` | backend/pkg/sessions/session.go:124-129 | the session object and its entry are marked |
| `SessionStore.Store.GetSessionUse` | backend/pkg/sessions/store.go:71-89 | the context's session, else the cookie's, else a new one without id; and when it panics |
| `SessionStore.Store.PutSessionUse` | backend/pkg/sessions/store.go:93-97 | a use goes back to the cache |
| `Sessions.CountsAreExact` | backend/pkg/sessions/memcache/memcache.go:44-145 | over every interleaving no panic occurs and each use count is the number of uses not put back |
| `Sessions.FirstSaveExactIff` | backend/pkg/sessions/memcache/memcache.go:131-143 | the first save keeps the counts exact if and only if the session has exactly one use |
| `Sessions.FirstSavePanicsIff` | backend/pkg/sessions/memcache/memcache.go:77-87 | after the first save of a session that nobody marks, putting back all its uses panics if and only if there are at least two of them |
| `Sessions.EntryRemovedIff` | backend/pkg/sessions/memcache/memcache.go:77-98 | an entry goes away exactly with the last put of a marked session, or by destroying an unused one |
| `Sessions.HeldEntryStays` | backend/pkg/sessions/memcache/memcache.go:77-98 | a session in use is never removed |
| `Sessions.CookieOpensUnmarked` | backend/pkg/sessions/store.go:71-89 | a cookie opens a session exactly when it is cached and not marked, and panics exactly when that session's values cannot be copied |
| `SessionValues.CookieOpensLastSaved` | backend/pkg/sessions/memcache/memcache.go:121-154 | after every run a cookie that opens a session hands out exactly the values of the latest successful save under its id |
| `SessionValues.SetSaveOpen` | backend/pkg/sessions/memcache/memcache.go:128-142 | the values set in a session before it is saved, for the first time or again, are what the next request with its cookie gets |
| `SessionValues.SaveVerdict` | backend/pkg/sessions/memcache/memcache.go:121-143 | which saves succeed, find the session marked, and assign the new id |
| `SessionValues.EmptyIdIsInert` | backend/pkg/sessions/memcache/memcache.go:52-118 | the id of a session that was never saved stands for no entry, whatever is asked of the cache |
| `SessionValues.FailedSaveStoresNothing` | backend/pkg/sessions/memcache/memcache.go:121-143 | a save that fails, or of a marked session, leaves the cache as it was |
| `SessionValues.EndedSessionNeverOpens` | backend/pkg/sessions/memcache/memcache.go:90-118 | once a session was destroyed or marked, no later request of any run gets it by its cookie |
| `Sessions.SharedUnsavedSessionPanics` | backend/pkg/sessions/memcache/memcache.go:79-81 | sharing a session before its first save ends in the panic |
| `GithubSessions.GithubAuth.AddSessionID` | backend/pkg/auth/github.go:483-501 | a login enters both maps |
| `GithubSessions.GithubAuth.CleanupSession` | backend/pkg/auth/github.go:503-532 | a logout leaves both maps |
| `GithubSessions.GithubAuth.StealUserSessionIDs` | backend/pkg/auth/github.go:603-624 | all sessions of the user are returned and leave the index |
| `GithubSessions.GithubAuth.StealUserSessionIDsForOrg` | backend/pkg/auth/github.go:647-668 | exactly the sessions granted by the organization itself |
| `GithubSessions.GithubAuth.StealUserSessionIDsForOrgAndTeam` | backend/pkg/auth/github.go:713-742 | exactly the user's sessions of the team |
| `GithubSessions.GithubAuth.StealSessionIDsForOrgAndTeam` | backend/pkg/auth/github.go:774-799 | the team's sessions of all users listed under it |
| `GithubIndex.TeamNamesTellApart` | backend/pkg/auth/github.go:801-803 | without a slash in organization names, team names tell teams apart |
| `GithubIndex.RunsKeepBacked` | backend/pkg/auth/github.go:483-532 | with session ids added once, a user listed under a team owns a session of it and nothing empty is stored, over every run |
| `GithubIndex.RevokedUserIsGone` | backend/pkg/auth/github.go:603-624 | a revoked user is in neither map |
| `GithubIndex.RunsKeepAgree` | backend/pkg/auth/github.go:483-532 | with at most one session per user and team the two maps agree both ways, over every run |
| `GithubIndex.UnlistedIffCleaned` | backend/pkg/auth/github.go:503-532 | over every run, a user who owns a session of a team is not listed under it exactly when one of the user's sessions of the team was cleaned up since the user's last login through the team |
| `GithubIndex.TeamStealIsCompleteIff` | backend/pkg/auth/github.go:774-799 | over every run, the team-wide steal finds all sessions of the team if and only if that happened to no owner of one |
| `GithubIndex.TeamStealIsComplete` | backend/pkg/auth/github.go:774-799 | with at most one session per user and team it always does |
| `GithubIndex.SecondSessionSurvives` | backend/pkg/auth/github.go:514-526 | after one of two sessions is cleaned up, deleting the team misses the other |
| `StringArrayParser.Parse` | backend/pkg/api/types/string_array.go:55-158 | the loops and jumps compute the parse, end, and never index out of bounds or divide by zero |
| `StringArrayParser.ScanElement` | backend/pkg/api/types/string_array.go:77-122 | the part labelled Element |
| `StringArrayParser.ScanRest` | backend/pkg/api/types/string_array.go:124-136 | what follows an element, with the jumps back |
| `StringArrayParser.ScanLinearArray` | backend/pkg/api/types/string_array.go:160-169 | arrays of several dimensions are refused |
| `StringArrayParser.StringArrayVariable.ScanBytes` | backend/pkg/api/types/string_array.go:30-47 | succeeds exactly for an array without NULL, and otherwise leaves the variable alone |
| `StringArrays.After` | backend/pkg/api/types/string_array.go:124-136 | accepted input is consumed, and each closed level has a positive count |
| `StringArrays.AcceptedDimensions` | backend/pkg/api/types/string_array.go:150-156 | dimensions of accepted input are positive and divide the number of elements; a one-dimensional array counts its elements |
| `StringArrays.ErrorsTellTheTruth` | backend/pkg/api/types/string_array.go:55-158 | a missing opening brace is reported exactly when it is missing, a missing closing brace at the end, and an unexpected byte at the place where it is |
| `StringArrays.ScanLinearIff` | backend/pkg/api/types/string_array.go:160-169 | the parser accepts exactly the texts of the array grammar and returns what they stand for |
| `StringArrays.PrintThenScan` | backend/pkg/api/types/string_array.go:49-54 | printing any list with the server's quoting rules and parsing it gives the list back |
| `StringArrayParser.StringsRoundTrip` | backend/pkg/api/types/string_array.go:30-47 | the same for lists of strings |

## Left out

- Interleavings of two requests: a request is one step, because the code takes no locks across its statements.
- Database outages during runtime and admin requests, connections and transaction isolation; whether a database call succeeds is an input of cloning and of the syncer only.
- Activity entries, the event table's rows, metrics and logging.
- Overrides of policy fields other than updates-enabled: nothing in the server writes them.
- Deleting groups, applications and instances while the update service runs.
- Build metadata of versions; two versions that differ only there are one version here.
- Time zones and the office-hours clock: whether it is office hours is an input.
- XML, HTTP, hashing and temporary files: a download succeeds or fails, and a file appears under its name or not.
- OAuth exchanges, webhook decoding and cookie encryption; only the session index and the cached sessions are modelled.
- URLs, descriptions, labels, colors and the length limits of columns.
- Product ids of applications, and the cache of application ids.
- Boot and machine ids of the syncer, and its polling loop over channels.
- `Mirrors.AbortThenSuccess`: compares the catalogues and not the package directories, because names of files of different versions may coincide as text.
- `Rollout.RolloutBound`: moving an instance into the group during the run is excluded, since it adds updates without a grant.
- `Protocol.ClientWalks`: a pause of about a day between two rounds, after which the server has forgotten the check-in, is left to `Protocol.ServedIffRemembered`, and a deployment that disables updates after the first failure to `Brake`. The client's group has no limits, and nobody changes it or its channel during the walk.
- `ServedVersions.ServedIsGranted`: the instance asks as a regular client throughout; a check of a syncer grants the target and hands out every package before it.
- `Sessions.CountsAreExact`: callers are assumed to put each use back once, to mark only what they hold and to share only saved sessions; new session ids are assumed new, and values that were copied into the cache can be copied out of it.
