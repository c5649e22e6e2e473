/**
 Update grants, events and the rollout policy of one application.

 `Db` holds the tables the runtime service writes: `instance`, `instance_application` together with
 its status history, and `groups` joined with the node-local `group_local`. The functions say what
 one request does to the tables; class `Service` performs the same requests statement by statement.
 Times are in microseconds. Each request is one atomic step that reads the clock once.
 */
module Runtime {
  import opened Versions
  import opened Wrappers
  import opened Floors

  const MAX_PARALLEL_UPDATES := 900000
  const SECOND: int := 1_000_000
  /** A row that did not check in for this long is invisible to `GetInstance` and to the statistics. */
  const VALIDITY: int := 86_400 * SECOND
  /** A row that checked in this recently is not written again when nothing changed. */
  const RECENT: int := 300 * SECOND

  const EVENT_UPDATE_COMPLETE := 3
  const EVENT_UPDATE_DOWNLOAD_STARTED := 13
  const EVENT_UPDATE_DOWNLOAD_FINISHED := 14
  const EVENT_UPDATE_INSTALLED := 800
  const RESULT_FAILED := 0
  const RESULT_SUCCESS := 1
  const RESULT_SUCCESS_REBOOT := 2

  datatype Status = Undefined | UpdateGranted | Error | Complete | Installed | Downloaded | Downloading | OnHold

  /** A row of the status history; its version column is nullable. */
  datatype HistoryEntry = HistoryEntry(status: Status, version: Option<Version>)

  datatype Row = Row(group: string, version: Version, status: Option<Status>, lastCheck: int,
                     grantedAt: Option<int>, lastUpdateVersion: Option<Version>, inProgress: bool,
                     history: seq<HistoryEntry>)

  datatype Metadata = Metadata(ip: string, alias: string, oem: string, aleph: string)

  datatype Policy = Policy(updatesEnabled: bool, safeMode: bool, officeHours: bool,
                           periodInterval: int, maxUpdates: int, updateTimeout: int)

  /** A group row joined with its `group_local` row; `updatesOverride` is the only override the server writes. */
  datatype Group = Group(channel: Option<Channel>, policy: Policy, updatesOverride: Option<bool>,
                         rolloutInProgress: bool)
  {
    /** COALESCE(override, default). */
    predicate UpdatesEnabled() {
      match updatesOverride
      case Some(enabled) => enabled
      case None => policy.updatesEnabled
    }

    predicate HasPackage() {
      channel.Some? && channel.value.target.Some?
    }

    function TargetVersion(): Option<Version> {
      if HasPackage() then Some(channel.value.target.value.version) else None
    }
  }

  datatype Db = Db(instances: map<string, Metadata>, rows: map<string, Row>, groups: map<string, Group>)

  datatype Config = Config(isFlatcar: bool, disableUpdatesOnFailedRollout: bool, maxFloors: nat)

  /** `version` is None when the client sent something that is not a semantic version. */
  datatype Request = Request(instance: string, metadata: Metadata, version: Option<Version>, group: string)

  datatype Event = Event(instance: string, group: string, etype: int, result: int, previousVersion: string)

  datatype Clock = Clock(now: int, officeHours: bool)

  datatype UpdateError =
    | RegisterInstanceFailed
    | UpdateInProgressOnInstance
    | NoPackageFound
    | NoUpdatePackageAvailable
    | UpdatesDisabled
    | MaxUpdatesPerPeriodLimitReached
    | MaxConcurrentUpdatesLimitReached
    | MaxTimedOutUpdatesLimitReached
    | UpdateGrantFailed

  datatype EventError =
    | InvalidInstance
    | InvalidApplicationOrGroup
    | NoUpdateInProgress
    | FlatcarEventIgnored
    | InvalidEventTypeOrResult

  datatype Outcome<+T> = Outcome(db: Db, result: Result<T, UpdateError>)

  datatype EventOutcome = EventOutcome(db: Db, error: Option<EventError>)

  // ----- rows -----

  predicate InProgressStatus(s: Status) {
    s == UpdateGranted || s == Downloading || s == Downloaded || s == Installed
  }

  /** The states in which a new check is refused because the client is busy. */
  predicate BusyStatus(s: Status) {
    s == Downloading || s == Downloaded || s == Installed
  }

  predicate ClearsInProgress(s: Status) {
    s == Complete || s == Error || s == Undefined || s == OnHold
  }

  /** What one call of `updateInstanceData` sets: a grant, or just a status. */
  datatype Change = Grant(granted: Version, at: int) | SetStatus(to: Status)
  {
    function NewStatus(): Status {
      match this
      case Grant(_, _) => UpdateGranted
      case SetStatus(s) => s
    }
  }

  /** The row after the UPDATE of `updateInstanceData`, with its history entry appended. */
  function Changed(row: Row, change: Change): Row {
    match change
    case Grant(v, at) =>
      row.(status := Some(UpdateGranted), grantedAt := Some(at), lastUpdateVersion := Some(v), inProgress := true,
           history := row.history + [HistoryEntry(UpdateGranted, Some(v))])
    case SetStatus(s) =>
      row.(status := Some(s),
           version := if s == Complete && row.lastUpdateVersion.Some? then row.lastUpdateVersion.value else row.version,
           inProgress := if ClearsInProgress(s) then false else row.inProgress,
           history := row.history + [HistoryEntry(s, row.lastUpdateVersion)])
  }

  function NewRow(group: string, version: Version, now: int): Row {
    Row(group, version, None, now, None, None, false, [])
  }

  /** The application part of `GetInstance`: rows that are silent for a day are not found. */
  function FetchRow(db: Db, now: int, instance: string): (row: Option<Row>)
    ensures row.Some? ==> instance in db.rows && row.value == db.rows[instance]
  {
    if instance in db.rows && db.rows[instance].lastCheck > now - VALIDITY then Some(db.rows[instance]) else None
  }

  /**
   `updateInstanceData`, given the instance as it was read before. A snapshot without an application
   part carries no application id, so the statement fails and nothing is written.
   */
  function WriteData(db: Db, instance: string, snapshot: Option<Row>, change: Change): Db
    requires snapshot.Some? ==> instance in db.rows
  {
    if snapshot.None? || snapshot.value.status == Some(change.NewStatus()) then db
    else db.(rows := db.rows[instance := Changed(db.rows[instance], change)])
  }

  /** `updateInstanceStatus`: read the instance again, then write. */
  function WriteStatus(db: Db, now: int, instance: string, s: Status): Db {
    WriteData(db, instance, FetchRow(db, now, instance), SetStatus(s))
  }

  // ----- registration -----

  function OrKeep(given: string, known: string): string {
    if given == "" then known else given
  }

  function MergedMetadata(given: Metadata, known: Metadata): Metadata {
    Metadata(given.ip, OrKeep(given.alias, known.alias), OrKeep(given.oem, known.oem), OrKeep(given.aleph, known.aleph))
  }

  function CheckedIn(db: Db, now: int, req: Request, v: Version): Db {
    db.(rows := db.rows[req.instance :=
          if req.instance in db.rows then db.rows[req.instance].(group := req.group, version := v, lastCheck := now)
          else NewRow(req.group, v, now)])
  }

  datatype Registration = Registration(db: Db, snapshot: Option<Row>)

  /**
   `RegisterInstance`. The snapshot is the instance as the caller sees it afterwards. When just one
   of the two tables needs writing, the caller sees the instance as it was before the write.
   */
  function Register(db: Db, now: int, req: Request): (r: Option<Registration>)
    ensures r.Some? ==> r.value.snapshot.Some? ==> req.instance in r.value.db.rows
    ensures r.Some? ==> r.value.db.groups == db.groups && req.group in db.groups && req.version.Some?
  {
    if req.version.None? || req.group !in db.groups then None
    else
      var v := req.version.value;
      if req.instance !in db.instances then
        var db' := CheckedIn(db.(instances := db.instances[req.instance := req.metadata]), now, req, v);
        Some(Registration(db', FetchRow(db', now, req.instance)))
      else
        var found := FetchRow(db, now, req.instance);
        var metadata := MergedMetadata(req.metadata, db.instances[req.instance]);
        var described := db.(instances := db.instances[req.instance := metadata]);
        var same := metadata == db.instances[req.instance];
        var recent := found.Some? && found.value.lastCheck >= now - RECENT
                     && found.value.version == v && found.value.group == req.group;
        if same && recent then Some(Registration(db, found))
        else if same then Some(Registration(CheckedIn(db, now, req, v), found))
        else if recent then Some(Registration(described, found))
        else
          var db' := CheckedIn(described, now, req, v);
          Some(Registration(db', FetchRow(db', now, req.instance)))
  }

  // ----- statistics and policy -----

  /** Instance ids of the form '{uuid}' belong to other update servers and are not counted. */
  predicate IsFake(id: string) {
    && |id| == 38
    && id[0] == '{' && id[9] == '-' && id[14] == '-' && id[19] == '-' && id[24] == '-' && id[37] == '}'
  }

  predicate Counted(id: string, row: Row, group: string, now: int) {
    row.group == group && row.lastCheck > now - VALIDITY && !IsFake(id)
  }

  predicate GrantedInPeriod(row: Row, period: int, now: int) {
    row.grantedAt.Some? && row.grantedAt.value > now - period
  }

  predicate RunningInTime(row: Row, timeout: int, now: int) {
    row.inProgress && row.grantedAt.Some? && now - row.grantedAt.value <= timeout
  }

  predicate TimedOut(row: Row, timeout: int, now: int) {
    row.inProgress && row.grantedAt.Some? && now - row.grantedAt.value > timeout
  }

  predicate Attempted(row: Row, target: Option<Version>) {
    !row.inProgress && row.lastUpdateVersion.Some? && row.lastUpdateVersion == target
  }

  function GrantedCount(db: Db, group: string, period: int, now: int): nat {
    |set i | i in db.rows && Counted(i, db.rows[i], group, now) && GrantedInPeriod(db.rows[i], period, now)|
  }

  function InProgressCount(db: Db, group: string, timeout: int, now: int): nat {
    |set i | i in db.rows && Counted(i, db.rows[i], group, now) && RunningInTime(db.rows[i], timeout, now)|
  }

  function TimedOutCount(db: Db, group: string, timeout: int, now: int): nat {
    |set i | i in db.rows && Counted(i, db.rows[i], group, now) && TimedOut(db.rows[i], timeout, now)|
  }

  function AttemptedCount(db: Db, group: string, target: Option<Version>, now: int): nat {
    |set i | i in db.rows && Counted(i, db.rows[i], group, now) && Attempted(db.rows[i], target)|
  }

  function SucceededCount(db: Db, group: string, target: Option<Version>, now: int): nat {
    |set i | i in db.rows && Counted(i, db.rows[i], group, now) && Attempted(db.rows[i], target)
             && Some(db.rows[i].version) == target|
  }

  function TotalCount(db: Db, group: string, now: int): nat {
    |set i | i in db.rows && Counted(i, db.rows[i], group, now)|
  }

  /** Safe mode admits one update at a time until some attempt at the target has ended. */
  function EffectiveMax(db: Db, group: string, now: int): int
    requires group in db.groups
  {
    var g := db.groups[group];
    if g.policy.safeMode && AttemptedCount(db, group, g.TargetVersion(), now) == 0 then 1 else g.policy.maxUpdates
  }

  /** Why `enforceRolloutPolicy` refuses a grant, if it does. */
  function Refusal(db: Db, clock: Clock, group: string): Option<UpdateError>
    requires group in db.groups
  {
    var g := db.groups[group];
    if !g.UpdatesEnabled() || (g.policy.officeHours && !clock.officeHours) then Some(UpdatesDisabled)
    else if g.policy.maxUpdates >= MAX_PARALLEL_UPDATES && !g.policy.safeMode then None
    else
      var limit := EffectiveMax(db, group, clock.now);
      if GrantedCount(db, group, g.policy.periodInterval, clock.now) >= limit then Some(MaxUpdatesPerPeriodLimitReached)
      else if InProgressCount(db, group, g.policy.updateTimeout, clock.now) >= limit then
        Some(MaxConcurrentUpdatesLimitReached)
      else if g.policy.safeMode && TimedOutCount(db, group, g.policy.updateTimeout, clock.now) >= limit then
        Some(MaxTimedOutUpdatesLimitReached)
      else None
  }

  function Braked(db: Db, group: string): Db
    requires group in db.groups
  {
    db.(groups := db.groups[group := db.groups[group].(updatesOverride := Some(false))])
  }

  function WithRollout(db: Db, group: string, inProgress: bool): Db
    requires group in db.groups
  {
    db.(groups := db.groups[group := db.groups[group].(rolloutInProgress := inProgress)])
  }

  /** The writes that come with a refusal: the instance is put on hold, and too many timeouts trip the brake. */
  function Refused(db: Db, now: int, instance: string, snapshot: Option<Row>, group: string, why: UpdateError): Db
    requires group in db.groups
  {
    if why == UpdatesDisabled then db
    else
      var db' := if why == MaxTimedOutUpdatesLimitReached then Braked(db, group) else db;
      if snapshot.None? then db' else WriteStatus(db', now, instance, OnHold)
  }

  /** Policy check, then grant: the common tail of both kinds of update check. */
  function GrantOrRefuse(db: Db, clock: Clock, instance: string, snapshot: Option<Row>, group: string,
                         v: Version): Outcome<()>
    requires group in db.groups && (snapshot.Some? ==> instance in db.rows)
  {
    match Refusal(db, clock, group)
    case Some(why) => Outcome(Refused(db, clock.now, instance, snapshot, group, why), Err(why))
    case None =>
      if snapshot.None? then Outcome(db, Err(UpdateGrantFailed))
      else Outcome(WithRollout(WriteData(db, instance, snapshot, Grant(v, clock.now)), group, true), Ok(()))
  }

  // ----- update checks -----

  /** An instance that already holds a grant. */
  function ServeGranted(db: Db, cfg: Config, req: Request, v: Version, row: Row, ch: Channel): Outcome<Package>
    requires ch.target.Some? && req.instance in db.rows
  {
    if ch.id in ch.target.value.blacklist || row.lastUpdateVersion.None? || !Less(v, row.lastUpdateVersion.value) then
      Outcome(WriteData(db, req.instance, Some(row), SetStatus(Complete)), Err(NoUpdatePackageAvailable))
    else Outcome(db, Ok(PackagesForUpdate(ch, v, cfg.maxFloors)[0]))
  }

  /** `GetUpdatePackage`. */
  function Check(db: Db, cfg: Config, clock: Clock, req: Request): Outcome<Package> {
    match Register(db, clock.now, req)
    case None => Outcome(db, Err(RegisterInstanceFailed))
    case Some(Registration(db1, snapshot)) =>
      var v, group := req.version.value, db1.groups[req.group];
      if snapshot.Some? && snapshot.value.status.Some? && BusyStatus(snapshot.value.status.value) then
        Outcome(db1, Err(UpdateInProgressOnInstance))
      else if !group.HasPackage() then Outcome(db1, Err(NoPackageFound))
      else if snapshot.Some? && snapshot.value.status == Some(UpdateGranted) then
        ServeGranted(db1, cfg, req, v, snapshot.value, group.channel.value)
      else if !Less(v, group.channel.value.target.value.version) then Outcome(db1, Err(NoUpdatePackageAvailable))
      else
        var next := PackagesForUpdate(group.channel.value, v, cfg.maxFloors)[0];
        if group.channel.value.id in next.blacklist then Outcome(db1, Err(NoUpdatePackageAvailable))
        else
          match GrantOrRefuse(db1, clock, req.instance, snapshot, req.group, next.version)
          case Outcome(db2, Err(why)) => Outcome(db2, Err(why))
          case Outcome(db2, Ok(_)) => Outcome(db2, Ok(next))
  }

  predicate SomeBlacklisted(packages: seq<Package>, channel: string) {
    exists p | p in packages :: channel in p.blacklist
  }

  /** `GetUpdatePackagesForSyncer`: the grant is for the target, and every package is handed out. */
  function SyncerCheck(db: Db, cfg: Config, clock: Clock, req: Request): Outcome<seq<Package>> {
    match Register(db, clock.now, req)
    case None => Outcome(db, Err(RegisterInstanceFailed))
    case Some(Registration(db1, snapshot)) =>
      var v, group := req.version.value, db1.groups[req.group];
      if snapshot.Some? && snapshot.value.status.Some? && BusyStatus(snapshot.value.status.value) then
        Outcome(db1, Err(UpdateInProgressOnInstance))
      else if !group.HasPackage() then Outcome(db1, Err(NoPackageFound))
      else if !Less(v, group.channel.value.target.value.version) then Outcome(db1, Err(NoUpdatePackageAvailable))
      else
        var packages := PackagesForUpdate(group.channel.value, v, cfg.maxFloors);
        if SomeBlacklisted(packages, group.channel.value.id) then
          Outcome(db1, Err(NoUpdatePackageAvailable))
        else
          match GrantOrRefuse(db1, clock, req.instance, snapshot, req.group, packages[|packages| - 1].version)
          case Outcome(db2, Err(why)) => Outcome(db2, Err(why))
          case Outcome(db2, Ok(_)) => Outcome(db2, Ok(packages))
  }

  // ----- events -----

  /** The rows of the `event_type` table. */
  predicate KnownEvent(etype: int, result: int) {
    (etype, result) in {
      (EVENT_UPDATE_COMPLETE, RESULT_FAILED), (EVENT_UPDATE_COMPLETE, RESULT_SUCCESS),
      (EVENT_UPDATE_COMPLETE, RESULT_SUCCESS_REBOOT), (EVENT_UPDATE_DOWNLOAD_STARTED, RESULT_SUCCESS),
      (EVENT_UPDATE_DOWNLOAD_FINISHED, RESULT_SUCCESS), (EVENT_UPDATE_INSTALLED, RESULT_SUCCESS) }
  }

  /** The status an event leads to; a plain success completes an update except for Flatcar. */
  function EventStatus(cfg: Config, etype: int, result: int): Option<Status> {
    if etype == EVENT_UPDATE_COMPLETE
        && (result == RESULT_SUCCESS_REBOOT || (!cfg.isFlatcar && result == RESULT_SUCCESS))
    then Some(Complete)
    else if etype == EVENT_UPDATE_DOWNLOAD_STARTED && result == RESULT_SUCCESS then Some(Downloading)
    else if etype == EVENT_UPDATE_DOWNLOAD_FINISHED && result == RESULT_SUCCESS then Some(Downloaded)
    else if etype == EVENT_UPDATE_INSTALLED && result == RESULT_SUCCESS then Some(Installed)
    else if result == RESULT_FAILED then Some(Error)
    else None
  }

  /** `triggerEventConsequences`. */
  function Consequences(db: Db, cfg: Config, now: int, e: Event): Db
    requires e.group in db.groups
  {
    match EventStatus(cfg, e.etype, e.result)
    case None => db
    case Some(s) =>
      var db1 := WriteStatus(db, now, e.instance, s);
      var target := db.groups[e.group].TargetVersion();
      if s == Complete && SucceededCount(db1, e.group, target, now) == TotalCount(db1, e.group, now) then
        WithRollout(db1, e.group, false)
      else if s == Error && cfg.disableUpdatesOnFailedRollout && AttemptedCount(db1, e.group, target, now) == 1 then
        WithRollout(Braked(db1, e.group), e.group, false)
      else db1
  }

  /** `RegisterEvent`. */
  function HandleEvent(db: Db, cfg: Config, now: int, e: Event): EventOutcome {
    var row := FetchRow(db, now, e.instance);
    if e.group !in db.groups then EventOutcome(db, Some(InvalidApplicationOrGroup))
    else if e.instance !in db.instances then EventOutcome(db, Some(InvalidInstance))
    else if row.None? then EventOutcome(db, Some(InvalidApplicationOrGroup))
    else if !row.value.inProgress then EventOutcome(db, Some(NoUpdateInProgress))
    else if cfg.isFlatcar && e.etype == EVENT_UPDATE_COMPLETE && e.result == RESULT_SUCCESS_REBOOT
            && (e.previousVersion == "" || e.previousVersion == "0.0.0.0") then
      EventOutcome(WriteData(db, e.instance, row, SetStatus(Undefined)), Some(FlatcarEventIgnored))
    else if !KnownEvent(e.etype, e.result) then EventOutcome(db, Some(InvalidEventTypeOrResult))
    else EventOutcome(Consequences(db, cfg, now, e), None)
  }
}
