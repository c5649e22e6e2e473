/** The runtime service, performing each request statement by statement on its tables. */
module RuntimeService {
  import opened Versions
  import opened Wrappers
  import opened Floors
  import opened Runtime

  class Service {
    const cfg: Config
    var instances: map<string, Metadata>
    var rows: map<string, Row>
    var groups: map<string, Group>

    function State(): Db
      reads this
    {
      Db(instances, rows, groups)
    }

    constructor (cfg: Config, groups: map<string, Group>)
      ensures this.cfg == cfg && State() == Db(map[], map[], groups)
    {
      this.cfg := cfg;
      this.groups := groups;
      instances, rows := map[], map[];
    }

    /** The upsert of `instance_application`: on conflict only group, version and check time change. */
    method UpsertInstanceApplication(now: int, req: Request)
      requires req.version.Some?
      modifies this`rows
      ensures State() == CheckedIn(old(State()), now, req, req.version.value)
    {
      var row := NewRow(req.group, req.version.value, now);
      if req.instance in rows {
        row := rows[req.instance].(group := req.group, version := req.version.value, lastCheck := now);
      }
      rows := rows[req.instance := row];
    }

    /** `RegisterInstance`. */
    method RegisterInstance(now: int, req: Request) returns (ok: bool, snapshot: Option<Row>)
      modifies this`instances, this`rows
      ensures match Register(old(State()), now, req)
              case None => !ok && State() == old(State())
              case Some(Registration(db, seen)) => ok && State() == db && snapshot == seen
    {
      snapshot := None;
      if req.version.None? || req.group !in groups {
        return false, None;
      }
      var metadata := req.metadata;
      var updateInstance, updateInstanceApplication := true, true;
      if req.instance in instances {
        var known := instances[req.instance];
        snapshot := FetchRow(State(), now, req.instance);
        if metadata.alias == "" { metadata := metadata.(alias := known.alias); }
        if metadata.oem == "" { metadata := metadata.(oem := known.oem); }
        if metadata.aleph == "" { metadata := metadata.(aleph := known.aleph); }
        updateInstance := metadata != known;
        updateInstanceApplication := snapshot.None? || snapshot.value.lastCheck < now - RECENT
                                     || snapshot.value.version != req.version.value
                                     || snapshot.value.group != req.group;
        if !updateInstance && !updateInstanceApplication {
          return true, snapshot;
        }
      }
      if updateInstance != updateInstanceApplication {
        if updateInstanceApplication {
          UpsertInstanceApplication(now, req);
        } else {
          instances := instances[req.instance := metadata];
        }
        return true, snapshot;
      }
      instances := instances[req.instance := metadata];
      UpsertInstanceApplication(now, req);
      snapshot := FetchRow(State(), now, req.instance);
      return true, snapshot;
    }

    /** `updateInstanceData`; `ok` is false when the statement failed. */
    method UpdateInstanceData(instance: string, snapshot: Option<Row>, change: Change) returns (ok: bool)
      requires snapshot.Some? ==> instance in rows
      modifies this`rows
      ensures State() == WriteData(old(State()), instance, snapshot, change) && ok == snapshot.Some?
    {
      var newStatus := change.NewStatus();
      if snapshot.None? {
        return false;
      }
      if snapshot.value.status == Some(newStatus) {
        return true;
      }
      var row := rows[instance];
      if newStatus == Complete && row.lastUpdateVersion.Some? {
        row := row.(version := row.lastUpdateVersion.value);
      }
      if ClearsInProgress(newStatus) {
        row := row.(inProgress := false);
      }
      if change.Grant? {
        row := row.(grantedAt := Some(change.at), lastUpdateVersion := Some(change.granted), inProgress := true);
      }
      row := row.(status := Some(newStatus), history := row.history + [HistoryEntry(newStatus, row.lastUpdateVersion)]);
      rows := rows[instance := row];
      return true;
    }

    /** `updateInstanceStatus`. */
    method UpdateInstanceStatus(now: int, instance: string, newStatus: Status)
      modifies this`rows
      ensures State() == WriteStatus(old(State()), now, instance, newStatus)
    {
      var snapshot := FetchRow(State(), now, instance);
      var _ := UpdateInstanceData(instance, snapshot, SetStatus(newStatus));
    }

    /** `disableUpdates`: trip the brake on this node. */
    method DisableUpdates(group: string)
      requires group in groups
      modifies this`groups
      ensures State() == Braked(old(State()), group)
    {
      groups := groups[group := groups[group].(updatesOverride := Some(false))];
    }

    /** `ClearUpdatesEnabledOverride`; `ok` is false when no row was affected. */
    method ClearUpdatesEnabledOverride(group: string) returns (ok: bool)
      modifies this`groups
      ensures ok == (group in old(groups)) && groups.Keys == old(groups).Keys
      ensures ok ==> groups[group] == old(groups)[group].(updatesOverride := None)
      ensures forall g | g in groups && g != group :: groups[g] == old(groups)[g]
    {
      if group !in groups {
        return false;
      }
      groups := groups[group := groups[group].(updatesOverride := None)];
      return true;
    }

    method SetGroupRolloutInProgress(group: string, inProgress: bool)
      requires group in groups
      modifies this`groups
      ensures State() == WithRollout(old(State()), group, inProgress)
    {
      groups := groups[group := groups[group].(rolloutInProgress := inProgress)];
    }

    /** The row of an instance that was refused becomes on hold, if the request knows its application row. */
    method PutOnHold(now: int, instance: string, snapshot: Option<Row>)
      modifies this`rows
      ensures State() == if snapshot.None? then old(State()) else WriteStatus(old(State()), now, instance, OnHold)
    {
      if snapshot.Some? {
        UpdateInstanceStatus(now, instance, OnHold);
      }
    }

    /** `enforceRolloutPolicy`. */
    method EnforceRolloutPolicy(clock: Clock, instance: string, snapshot: Option<Row>, group: string)
      returns (error: Option<UpdateError>)
      requires group in groups
      modifies this`rows, this`groups
      ensures error == Refusal(old(State()), clock, group)
      ensures State() == if error.None? then old(State())
                         else Refused(old(State()), clock.now, instance, snapshot, group, error.value)
    {
      var g := groups[group];
      if !g.UpdatesEnabled() {
        return Some(UpdatesDisabled);
      }
      if g.policy.officeHours && !clock.officeHours {
        return Some(UpdatesDisabled);
      }
      var effectiveMaxUpdates := g.policy.maxUpdates;
      if effectiveMaxUpdates >= MAX_PARALLEL_UPDATES && !g.policy.safeMode {
        return None;
      }
      if g.policy.safeMode && AttemptedCount(State(), group, g.TargetVersion(), clock.now) == 0 {
        effectiveMaxUpdates := 1;
      }
      if GrantedCount(State(), group, g.policy.periodInterval, clock.now) >= effectiveMaxUpdates {
        PutOnHold(clock.now, instance, snapshot);
        return Some(MaxUpdatesPerPeriodLimitReached);
      }
      if InProgressCount(State(), group, g.policy.updateTimeout, clock.now) >= effectiveMaxUpdates {
        PutOnHold(clock.now, instance, snapshot);
        return Some(MaxConcurrentUpdatesLimitReached);
      }
      if g.policy.safeMode && TimedOutCount(State(), group, g.policy.updateTimeout, clock.now) >= effectiveMaxUpdates {
        DisableUpdates(group);
        PutOnHold(clock.now, instance, snapshot);
        return Some(MaxTimedOutUpdatesLimitReached);
      }
      return None;
    }

    /** `GetUpdatePackage`. */
    method GetUpdatePackage(clock: Clock, req: Request) returns (result: Result<Package, UpdateError>)
      modifies this`instances, this`rows, this`groups
      ensures Outcome(State(), result) == Check(old(State()), cfg, clock, req)
    {
      var registered, snapshot := RegisterInstance(clock.now, req);
      if !registered {
        return Err(RegisterInstanceFailed);
      }
      var instanceVersion := req.version.value;
      if snapshot.Some? && snapshot.value.status.Some? && BusyStatus(snapshot.value.status.value) {
        return Err(UpdateInProgressOnInstance);
      }
      var group := groups[req.group];
      if !group.HasPackage() {
        return Err(NoPackageFound);
      }
      var channel := group.channel.value;
      if snapshot.Some? && snapshot.value.status == Some(UpdateGranted) {
        if channel.id in channel.target.value.blacklist {
          var _ := UpdateInstanceData(req.instance, snapshot, SetStatus(Complete));
          return Err(NoUpdatePackageAvailable);
        }
        if snapshot.value.lastUpdateVersion.Some? {
          if !Less(instanceVersion, snapshot.value.lastUpdateVersion.value) {
            var _ := UpdateInstanceData(req.instance, snapshot, SetStatus(Complete));
            return Err(NoUpdatePackageAvailable);
          }
          var packages := PackagesForUpdate(channel, instanceVersion, cfg.maxFloors);
          return Ok(packages[0]);
        }
        var _ := UpdateInstanceData(req.instance, snapshot, SetStatus(Complete));
        return Err(NoUpdatePackageAvailable);
      }
      if !Less(instanceVersion, channel.target.value.version) {
        return Err(NoUpdatePackageAvailable);
      }
      var packages := PackagesForUpdate(channel, instanceVersion, cfg.maxFloors);
      var nextPkg := packages[0];
      if channel.id in nextPkg.blacklist {
        return Err(NoUpdatePackageAvailable);
      }
      var refusal := EnforceRolloutPolicy(clock, req.instance, snapshot, req.group);
      if refusal.Some? {
        return Err(refusal.value);
      }
      var granted := UpdateInstanceData(req.instance, snapshot, Grant(nextPkg.version, clock.now));
      if !granted {
        return Err(UpdateGrantFailed);
      }
      SetGroupRolloutInProgress(req.group, true);
      return Ok(nextPkg);
    }

    /** The safety loop over everything a syncer would receive. */
    method AnyBlacklisted(packages: seq<Package>, channel: string) returns (found: bool)
      ensures found == SomeBlacklisted(packages, channel)
    {
      for k := 0 to |packages|
        invariant forall p | p in packages[..k] :: channel !in p.blacklist
      {
        if channel in packages[k].blacklist {
          return true;
        }
      }
      return false;
    }

    /** `GetUpdatePackagesForSyncer`. */
    method GetUpdatePackagesForSyncer(clock: Clock, req: Request) returns (result: Result<seq<Package>, UpdateError>)
      modifies this`instances, this`rows, this`groups
      ensures Outcome(State(), result) == SyncerCheck(old(State()), cfg, clock, req)
    {
      var registered, snapshot := RegisterInstance(clock.now, req);
      if !registered {
        return Err(RegisterInstanceFailed);
      }
      if snapshot.Some? && snapshot.value.status.Some? && BusyStatus(snapshot.value.status.value) {
        return Err(UpdateInProgressOnInstance);
      }
      var group := groups[req.group];
      if !group.HasPackage() {
        return Err(NoPackageFound);
      }
      var channel := group.channel.value;
      if !Less(req.version.value, channel.target.value.version) {
        return Err(NoUpdatePackageAvailable);
      }
      var packages := PackagesForUpdate(channel, req.version.value, cfg.maxFloors);
      var blacklisted := AnyBlacklisted(packages, channel.id);
      if blacklisted {
        return Err(NoUpdatePackageAvailable);
      }
      var refusal := EnforceRolloutPolicy(clock, req.instance, snapshot, req.group);
      if refusal.Some? {
        return Err(refusal.value);
      }
      var granted := UpdateInstanceData(req.instance, snapshot, Grant(packages[|packages| - 1].version, clock.now));
      if !granted {
        return Err(UpdateGrantFailed);
      }
      SetGroupRolloutInProgress(req.group, true);
      return Ok(packages);
    }

    /** `triggerEventConsequences`. */
    method TriggerEventConsequences(now: int, e: Event)
      requires e.group in groups
      modifies this`rows, this`groups
      ensures State() == Consequences(old(State()), cfg, now, e)
    {
      var target := groups[e.group].TargetVersion();
      if e.etype == EVENT_UPDATE_COMPLETE
         && (e.result == RESULT_SUCCESS_REBOOT || (!cfg.isFlatcar && e.result == RESULT_SUCCESS)) {
        UpdateInstanceStatus(now, e.instance, Complete);
        if SucceededCount(State(), e.group, target, now) == TotalCount(State(), e.group, now) {
          SetGroupRolloutInProgress(e.group, false);
        }
      }
      if e.etype == EVENT_UPDATE_DOWNLOAD_STARTED && e.result == RESULT_SUCCESS {
        UpdateInstanceStatus(now, e.instance, Downloading);
      }
      if e.etype == EVENT_UPDATE_DOWNLOAD_FINISHED && e.result == RESULT_SUCCESS {
        UpdateInstanceStatus(now, e.instance, Downloaded);
      }
      if e.etype == EVENT_UPDATE_INSTALLED && e.result == RESULT_SUCCESS {
        UpdateInstanceStatus(now, e.instance, Installed);
      }
      if e.result == RESULT_FAILED {
        UpdateInstanceStatus(now, e.instance, Error);
        if cfg.disableUpdatesOnFailedRollout {
          if AttemptedCount(State(), e.group, target, now) == 1 {
            DisableUpdates(e.group);
            SetGroupRolloutInProgress(e.group, false);
          }
        }
      }
    }

    /** `RegisterEvent`. */
    method RegisterEvent(now: int, e: Event) returns (error: Option<EventError>)
      modifies this`rows, this`groups
      ensures EventOutcome(State(), error) == HandleEvent(old(State()), cfg, now, e)
    {
      if e.group !in groups {
        return Some(InvalidApplicationOrGroup);
      }
      if e.instance !in instances {
        return Some(InvalidInstance);
      }
      var snapshot := FetchRow(State(), now, e.instance);
      if snapshot.None? {
        return Some(InvalidApplicationOrGroup);
      }
      if !snapshot.value.inProgress {
        return Some(NoUpdateInProgress);
      }
      if cfg.isFlatcar && e.etype == EVENT_UPDATE_COMPLETE && e.result == RESULT_SUCCESS_REBOOT {
        if e.previousVersion == "" || e.previousVersion == "0.0.0.0" {
          var _ := UpdateInstanceData(e.instance, snapshot, SetStatus(Undefined));
          return Some(FlatcarEventIgnored);
        }
      }
      if !KnownEvent(e.etype, e.result) {
        return Some(InvalidEventTypeOrResult);
      }
      TriggerEventConsequences(now, e);
      return None;
    }
  }
}
