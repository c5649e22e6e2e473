/**
 What every run of the runtime service keeps: the meaning of `update_in_progress` and the shape of
 each instance's status history.
 */
module RuntimeRuns {
  import opened Versions
  import opened Wrappers
  import opened Floors
  import opened Runtime

  /**
   Everything that can happen to the tables: the requests of clients and syncers, a machine showing
   up for another application, and administrators changing policies and channels. `GroupUpdate` is
   the update-group request, `OverrideClear` the request that releases this node's brake.
   */
  datatype Action =
    | RegularCheck(req: Request, officeHours: bool)
    | MirrorCheck(req: Request, officeHours: bool)
    | Ping(req: Request)
    | Report(event: Event)
    | OtherApplication(instance: string, metadata: Metadata)
    | GroupUpdate(group: string, policy: Policy)
    | ChannelChange(group: string, channel: Option<Channel>)
    | OverrideClear(group: string)

  datatype Step = Step(now: int, action: Action)

  /** `single` tells whether the node is a single-instance deployment. */
  datatype Node = Node(cfg: Config, single: bool)

  /** The update-group handler: write the policy, and in single mode release the brake when updates are re-enabled. */
  function UpdateGroup(db: Db, single: bool, group: string, policy: Policy): Db {
    if group !in db.groups then db
    else
      var before := db.groups[group];
      var released := single && !before.UpdatesEnabled() && policy.updatesEnabled;
      db.(groups := db.groups[group := before.(policy := policy,
                                                updatesOverride := if released then None else before.updatesOverride)])
  }

  /** The clear-override handler; single mode has no such request. */
  function ClearOverride(db: Db, single: bool, group: string): Db {
    if single || group !in db.groups then db
    else db.(groups := db.groups[group := db.groups[group].(updatesOverride := None)])
  }

  function Apply(db: Db, node: Node, step: Step): Db {
    match step.action
    case RegularCheck(req, officeHours) => Check(db, node.cfg, Clock(step.now, officeHours), req).db
    case MirrorCheck(req, officeHours) => SyncerCheck(db, node.cfg, Clock(step.now, officeHours), req).db
    case Ping(req) =>
      (match Register(db, step.now, req)
       case None => db
       case Some(registration) => registration.db)
    case Report(e) => HandleEvent(db, node.cfg, step.now, e).db
    case OtherApplication(instance, metadata) => db.(instances := db.instances[instance := metadata])
    case GroupUpdate(group, policy) => UpdateGroup(db, node.single, group, policy)
    case ChannelChange(group, channel) =>
      if group in db.groups then db.(groups := db.groups[group := db.groups[group].(channel := channel)]) else db
    case OverrideClear(group) => ClearOverride(db, node.single, group)
  }

  /** The tables after a run, starting from `db`. */
  function Exec(db: Db, node: Node, steps: seq<Step>): Db {
    if steps == [] then db
    else Apply(Exec(db, node, steps[..|steps| - 1]), node, steps[|steps| - 1])
  }

  /** A database without instances. */
  function Fresh(groups: map<string, Group>): Db {
    Db(map[], map[], groups)
  }

  // ----- the invariant of a row -----

  /** What may be appended to a status history that ends with `prev`. */
  predicate Follows(prev: Option<HistoryEntry>, next: HistoryEntry) {
    match prev
    case None => (next.status == UpdateGranted && next.version.Some?) || next == HistoryEntry(OnHold, None)
    case Some(p) =>
      && next.status != p.status
      && (if next.status == UpdateGranted then next.version.Some? else next.version == p.version)
      && (if next.status == UpdateGranted || next.status == OnHold then !BusyStatus(p.status)
          else InProgressStatus(p.status))
  }

  predicate EntryOk(h: seq<HistoryEntry>, k: int)
    requires 0 <= k < |h|
  {
    Follows(if k == 0 then None else Some(h[k - 1]), h[k])
  }

  predicate HistoryOk(h: seq<HistoryEntry>) {
    forall k | 0 <= k < |h| :: EntryOk(h, k)
  }

  predicate RowOk(row: Row) {
    && (row.inProgress <==> row.status.Some? && InProgressStatus(row.status.value))
    && (row.inProgress ==> row.lastUpdateVersion.Some?)
    && (row.lastUpdateVersion.Some? <==> row.grantedAt.Some?)
    && (if row.history == [] then row.status == None && row.lastUpdateVersion == None
        else row.history[|row.history| - 1] == HistoryEntry(if row.status.Some? then row.status.value else OnHold,
                                                            row.lastUpdateVersion) && row.status.Some?)
    && HistoryOk(row.history)
  }

  ghost predicate DbOk(db: Db) {
    && db.rows.Keys <= db.instances.Keys
    && forall i | i in db.rows :: RowOk(db.rows[i])
  }

  /** The changes the service makes, given the row's current status. */
  predicate Allowed(row: Row, change: Change) {
    && row.status != Some(change.NewStatus())
    && match change
       case Grant(_, _) => row.status.Some? ==> !BusyStatus(row.status.value)
       case SetStatus(s) =>
         if s == OnHold then row.status.Some? ==> !BusyStatus(row.status.value)
         else s != UpdateGranted && row.inProgress
  }

  lemma {:induction false} ChangedKeepsRowOk(row: Row, change: Change)
    requires RowOk(row) && Allowed(row, change)
    ensures RowOk(Changed(row, change))
  {
    var h, h' := row.history, Changed(row, change).history;
    assert h' == h + [h'[|h|]];
    forall k | 0 <= k < |h'|
      ensures EntryOk(h', k)
    {
      if k < |h| {
        assert EntryOk(h, k);
      }
    }
  }

  /** Registration never touches what an update left behind, and the caller's snapshot is not out of date about it. */
  ghost predicate SameProgress(a: Row, b: Row) {
    && a.status == b.status && a.inProgress == b.inProgress && a.history == b.history
    && a.lastUpdateVersion == b.lastUpdateVersion && a.grantedAt == b.grantedAt
  }

  /** What a registration changes: rows keep their progress, and a new row has none. */
  ghost predicate OnlyCheckedIn(before: Db, after: Db) {
    && before.rows.Keys <= after.rows.Keys && before.instances.Keys <= after.instances.Keys
    && (forall i | i in before.rows :: SameProgress(before.rows[i], after.rows[i]))
    && (forall i | i in after.rows && i !in before.rows ::
          i in after.instances && SameProgress(after.rows[i], NewRow(after.rows[i].group, after.rows[i].version, 0)))
    && (before.rows.Keys <= before.instances.Keys ==> after.rows.Keys <= after.instances.Keys)
  }

  lemma RegisterOnlyChecksIn(db: Db, now: int, req: Request)
    ensures var r := Register(db, now, req);
            r.Some? ==>
            && OnlyCheckedIn(db, r.value.db)
            && (r.value.snapshot.Some? ==> SameProgress(r.value.snapshot.value, r.value.db.rows[req.instance]))
  {
    hide FetchRow, MergedMetadata, OnlyCheckedIn;
    if Register(db, now, req).Some? {
      var v := req.version.value;
      var metadata := if req.instance in db.instances then MergedMetadata(req.metadata, db.instances[req.instance])
                      else req.metadata;
      WritesCheckIn(db, now, req, v, metadata);
    }
  }

  /** Each of the writes a registration may do: none, either table, or both. */
  lemma WritesCheckIn(db: Db, now: int, req: Request, v: Version, metadata: Metadata)
    ensures var described := db.(instances := db.instances[req.instance := metadata]);
            && OnlyCheckedIn(db, db) && OnlyCheckedIn(db, described)
            && OnlyCheckedIn(db, CheckedIn(described, now, req, v))
            && (req.instance in db.instances ==> OnlyCheckedIn(db, CheckedIn(db, now, req, v)))
  {
  }

  lemma RowOkOfProgress(a: Row, b: Row)
    requires RowOk(a) && SameProgress(a, b)
    ensures RowOk(b)
  {
  }

  lemma RegisterKeepsDbOk(db: Db, now: int, req: Request)
    requires DbOk(db)
    ensures var r := Register(db, now, req);
            r.Some? ==>
            && DbOk(r.value.db)
            && (r.value.snapshot.Some? ==> SameProgress(r.value.snapshot.value, r.value.db.rows[req.instance]))
  {
    RegisterOnlyChecksIn(db, now, req);
    var r := Register(db, now, req);
    if r.Some? {
      forall i | i in r.value.db.rows
        ensures RowOk(r.value.db.rows[i])
      {
        RowOkOfProgress(if i in db.rows then db.rows[i]
            else NewRow("", r.value.db.rows[i].version, 0), r.value.db.rows[i]);
      }
    }
  }

  lemma WriteDataKeepsDbOk(db: Db, instance: string, snapshot: Option<Row>, change: Change)
    requires DbOk(db)
    requires snapshot.Some? ==> instance in db.rows && SameProgress(snapshot.value, db.rows[instance])
    requires snapshot.Some? && snapshot.value.status != Some(change.NewStatus()) ==> Allowed(db.rows[instance], change)
    ensures DbOk(WriteData(db, instance, snapshot, change))
    ensures WriteData(db, instance, snapshot, change).groups == db.groups
  {
    if snapshot.Some? && snapshot.value.status != Some(change.NewStatus()) {
      ChangedKeepsRowOk(db.rows[instance], change);
    }
  }

  lemma GrantOrRefuseKeepsDbOk(db: Db, clock: Clock, instance: string, snapshot: Option<Row>, group: string, v: Version)
    requires DbOk(db) && group in db.groups
    requires snapshot.Some? ==> instance in db.rows && SameProgress(snapshot.value, db.rows[instance])
    requires instance in db.rows && db.rows[instance].status.Some? && snapshot.Some?
             ==> !BusyStatus(db.rows[instance].status.value)
    ensures DbOk(GrantOrRefuse(db, clock, instance, snapshot, group, v).db)
  {
    match Refusal(db, clock, group)
    case Some(why) =>
      if why != UpdatesDisabled && snapshot.Some? {
        var db' := if why == MaxTimedOutUpdatesLimitReached then Braked(db, group) else db;
        WriteDataKeepsDbOk(db', instance, FetchRow(db', clock.now, instance), SetStatus(OnHold));
      }
    case None =>
      WriteDataKeepsDbOk(db, instance, snapshot, Grant(v, clock.now));
  }

  lemma CheckKeepsDbOk(db: Db, cfg: Config, clock: Clock, req: Request)
    requires DbOk(db)
    ensures DbOk(Check(db, cfg, clock, req).db)
  {
    hide HistoryOk, Register, GrantOrRefuse, PackagesForUpdate;
    RegisterKeepsDbOk(db, clock.now, req);
    match Register(db, clock.now, req)
    case None =>
    case Some(Registration(db1, snapshot)) =>
      var group := db1.groups[req.group];
      if snapshot.Some? && snapshot.value.status.Some? && BusyStatus(snapshot.value.status.value) {
      } else if group.HasPackage() {
        if snapshot.Some? && snapshot.value.status == Some(UpdateGranted) {
          WriteDataKeepsDbOk(db1, req.instance, snapshot, SetStatus(Complete));
        } else {
          var next := PackagesForUpdate(group.channel.value, req.version.value, cfg.maxFloors)[0];
          GrantOrRefuseKeepsDbOk(db1, clock, req.instance, snapshot, req.group, next.version);
        }
      }
  }

  lemma SyncerCheckKeepsDbOk(db: Db, cfg: Config, clock: Clock, req: Request)
    requires DbOk(db)
    ensures DbOk(SyncerCheck(db, cfg, clock, req).db)
  {
    hide DbOk, Register, GrantOrRefuse, PackagesForUpdate;
    RegisterKeepsDbOk(db, clock.now, req);
    match Register(db, clock.now, req)
    case None =>
    case Some(Registration(db1, snapshot)) =>
      var group := db1.groups[req.group];
      if snapshot.Some? && snapshot.value.status.Some? && BusyStatus(snapshot.value.status.value) {
      } else if group.HasPackage() {
        var packages := PackagesForUpdate(group.channel.value, req.version.value, cfg.maxFloors);
        GrantOrRefuseKeepsDbOk(db1, clock, req.instance, snapshot, req.group, packages[|packages| - 1].version);
      }
  }

  /** What a check of either kind does to the tables once the instance is registered in `db1`. */
  ghost predicate CheckEffect(db1: Db, clock: Clock, req: Request, snapshot: Option<Row>, v: Version, db2: Db)
    requires req.group in db1.groups && (snapshot.Some? ==> req.instance in db1.rows)
  {
    || db2 == db1
    || (snapshot.Some? && snapshot.value.status == Some(UpdateGranted)
        && db2 == WriteData(db1, req.instance, snapshot, SetStatus(Complete)))
    || ((snapshot.Some? && snapshot.value.status.Some? ==> !BusyStatus(snapshot.value.status.value))
        && db2 == GrantOrRefuse(db1, clock, req.instance, snapshot, req.group, v).db)
  }

  lemma CheckHasEffect(db: Db, cfg: Config, clock: Clock, req: Request) returns (v: Version)
    requires Register(db, clock.now, req).Some?
    ensures var r := Register(db, clock.now, req).value;
            CheckEffect(r.db, clock, req, r.snapshot, v, Check(db, cfg, clock, req).db)
  {
    hide Register, GrantOrRefuse, PackagesForUpdate;
    var group := Register(db, clock.now, req).value.db.groups[req.group];
    v := req.version.value;
    if group.HasPackage() {
      v := PackagesForUpdate(group.channel.value, v, cfg.maxFloors)[0].version;
    }
  }

  lemma SyncerCheckHasEffect(db: Db, cfg: Config, clock: Clock, req: Request) returns (v: Version)
    requires Register(db, clock.now, req).Some?
    ensures var r := Register(db, clock.now, req).value;
            CheckEffect(r.db, clock, req, r.snapshot, v, SyncerCheck(db, cfg, clock, req).db)
  {
    hide Register, GrantOrRefuse, PackagesForUpdate;
    var group := Register(db, clock.now, req).value.db.groups[req.group];
    v := req.version.value;
    if group.HasPackage() {
      var packages := PackagesForUpdate(group.channel.value, v, cfg.maxFloors);
      v := packages[|packages| - 1].version;
    }
  }

  /** A check that goes all the way to a new grant. */
  lemma CheckGrants(db: Db, cfg: Config, clock: Clock, req: Request, db1: Db, row: Row, ch: Channel)
    requires req.version.Some? && req.group in db1.groups && req.instance in db1.rows
    requires Register(db, clock.now, req) == Some(Registration(db1, Some(row)))
    requires row.status.Some? ==> !InProgressStatus(row.status.value)
    requires db1.groups[req.group].channel == Some(ch) && ch.target.Some?
    requires Less(req.version.value, ch.target.value.version)
    requires ch.id !in PackagesForUpdate(ch, req.version.value, cfg.maxFloors)[0].blacklist
    requires Refusal(db1, clock, req.group).None?
    ensures var next := PackagesForUpdate(ch, req.version.value, cfg.maxFloors)[0];
            var granted := db1.(rows := db1.rows[req.instance := Changed(db1.rows[req.instance],
                Grant(next.version, clock.now))]);
            Check(db, cfg, clock, req) == Outcome(WithRollout(granted, req.group, true), Ok(next))
  {
  }

  /** What an event does to the tables. */
  lemma EventHasEffect(db: Db, cfg: Config, now: int, e: Event) returns (s: Status)
    ensures var db' := HandleEvent(db, cfg, now, e).db;
            && db'.instances == db.instances && db'.groups.Keys == db.groups.Keys
            && (db'.rows == db.rows || db'.rows == WriteStatus(db, now, e.instance, s).rows)
            && (forall g | g in db.groups :: db'.groups[g].policy == db.groups[g].policy
                                             && db'.groups[g].channel == db.groups[g].channel)
  {
    var status := EventStatus(cfg, e.etype, e.result);
    s := if HandleEvent(db, cfg, now, e).error == Some(FlatcarEventIgnored) || status.None? then Undefined
         else status.value;
    if e.group in db.groups {
      ConsequencesEffect(db, cfg, now, e);
    }
    hide Consequences, WriteData, KnownEvent, EventStatus;
  }

  lemma ConsequencesEffect(db: Db, cfg: Config, now: int, e: Event)
    requires e.group in db.groups
    ensures var db', status := Consequences(db, cfg, now, e), EventStatus(cfg, e.etype, e.result);
            && db'.instances == db.instances && db'.groups.Keys == db.groups.Keys
            && db'.rows == (if status.None? then db.rows else WriteStatus(db, now, e.instance, status.value).rows)
            && (forall g | g in db.groups :: db'.groups[g].policy == db.groups[g].policy
                                             && db'.groups[g].channel == db.groups[g].channel)
  {
    hide FetchRow, Changed, SucceededCount, TotalCount, AttemptedCount, EventStatus;
  }

  lemma EventKeepsDbOk(db: Db, cfg: Config, now: int, e: Event)
    requires DbOk(db)
    ensures DbOk(HandleEvent(db, cfg, now, e).db)
  {
    var row := FetchRow(db, now, e.instance);
    if row.Some? && row.value.inProgress {
      WriteDataKeepsDbOk(db, e.instance, row, SetStatus(Undefined));
      match EventStatus(cfg, e.etype, e.result)
      case None =>
      case Some(s) => WriteDataKeepsDbOk(db, e.instance, row, SetStatus(s));
    }
  }

  lemma ApplyKeepsDbOk(db: Db, node: Node, step: Step)
    requires DbOk(db)
    ensures DbOk(Apply(db, node, step))
  {
    match step.action
    case RegularCheck(req, officeHours) => CheckKeepsDbOk(db, node.cfg, Clock(step.now, officeHours), req);
    case MirrorCheck(req, officeHours) => SyncerCheckKeepsDbOk(db, node.cfg, Clock(step.now, officeHours), req);
    case Ping(req) => RegisterKeepsDbOk(db, step.now, req);
    case Report(e) => EventKeepsDbOk(db, node.cfg, step.now, e);
    case _ =>
  }

  /** The row invariant holds in every state a run can reach. */
  lemma {:induction false} RunsKeepDbOk(node: Node, groups: map<string, Group>, steps: seq<Step>)
    ensures DbOk(Exec(Fresh(groups), node, steps))
  {
    if steps != [] {
      RunsKeepDbOk(node, groups, steps[..|steps| - 1]);
      ApplyKeepsDbOk(Exec(Fresh(groups), node, steps[..|steps| - 1]), node, steps[|steps| - 1]);
    }
  }

  // ----- consequences -----

  /**
   In every reachable state an update is in progress exactly in the four states between grant and
   completion, and then the granted version is known.
   */
  lemma InProgressExactly(node: Node, groups: map<string, Group>, steps: seq<Step>, instance: string)
    requires instance in Exec(Fresh(groups), node, steps).rows
    ensures var row := Exec(Fresh(groups), node, steps).rows[instance];
            && (row.inProgress <==>
                row.status in {Some(UpdateGranted), Some(Downloading), Some(Downloaded), Some(Installed)})
            && (row.inProgress ==> row.lastUpdateVersion.Some? && row.grantedAt.Some?)
  {
    RunsKeepDbOk(node, groups, steps);
  }

  lemma BusyRefusal(db: Db, cfg: Config, clock: Clock, req: Request)
    ensures var r, result := Register(db, clock.now, req), Check(db, cfg, clock, req).result;
            && (result == Err(UpdateInProgressOnInstance) <==>
                  r.Some? && r.value.snapshot.Some? && r.value.snapshot.value.status.Some?
                  && BusyStatus(r.value.snapshot.value.status.value))
            && (SyncerCheck(db, cfg, clock, req).result == Err(UpdateInProgressOnInstance) <==>
                  result == Err(UpdateInProgressOnInstance))
  {
    hide Register, PackagesForUpdate, EffectiveMax, GrantedCount, InProgressCount, TimedOutCount, WriteData;
  }

  /**
   In every reachable state a check is refused as busy exactly when the registered instance is on record as
   downloading, downloaded or installed. So an instance without an update in progress is never refused so.
   */
  lemma {:induction false} RefusedAsBusyIff(node: Node, groups: map<string, Group>, steps: seq<Step>, cfg: Config,
      clock: Clock, req: Request)
    ensures var db := Exec(Fresh(groups), node, steps);
            var r, result := Register(db, clock.now, req), Check(db, cfg, clock, req).result;
            && (result == Err(UpdateInProgressOnInstance) <==>
                  && r.Some? && r.value.snapshot.Some? && req.instance in db.rows
                  && db.rows[req.instance].status in {Some(Downloading), Some(Downloaded), Some(Installed)})
            && (SyncerCheck(db, cfg, clock, req).result == Err(UpdateInProgressOnInstance) <==>
                  result == Err(UpdateInProgressOnInstance))
            && (result == Err(UpdateInProgressOnInstance) ==> db.rows[req.instance].inProgress)
  {
    var db := Exec(Fresh(groups), node, steps);
    RunsKeepDbOk(node, groups, steps);
    RegisterOnlyChecksIn(db, clock.now, req);
    BusyRefusal(db, cfg, clock, req);
    assert req.instance in db.rows ==> RowOk(db.rows[req.instance]);
    hide Exec, Register, Check, SyncerCheck, HistoryOk;
  }

  /** The fallback for a granted instance without a granted version is dead code. */
  lemma GrantedVersionAlwaysKnown(node: Node, groups: map<string, Group>, steps: seq<Step>, now: int, req: Request)
    ensures match Register(Exec(Fresh(groups), node, steps), now, req)
            case Some(Registration(_, Some(row))) => row.status == Some(UpdateGranted) ==> row.lastUpdateVersion.Some?
            case _ => true
  {
    var db := Exec(Fresh(groups), node, steps);
    RunsKeepDbOk(node, groups, steps);
    RegisterKeepsDbOk(db, now, req);
  }

  /** An entry without version can only be the first one, and it is an on-hold entry. */
  lemma {:induction false} NullVersionOnlyFirst(h: seq<HistoryEntry>, k: nat)
    requires HistoryOk(h) && k < |h|
    ensures h[k].version.None? <==> k == 0 && h[0].status == OnHold
  {
    assert EntryOk(h, k);
    if k > 0 {
      NullVersionOnlyFirst(h, k - 1);
      assert EntryOk(h, 0);
    }
  }

  /** Going back from an in-progress entry through in-progress entries leads to the grant that opened the segment. */
  lemma {:induction false} SegmentStart(h: seq<HistoryEntry>, k: nat) returns (start: nat)
    requires HistoryOk(h) && k < |h| && InProgressStatus(h[k].status)
    ensures start <= k && h[start].status == UpdateGranted
    ensures forall j | start < j <= k :: BusyStatus(h[j].status) && h[j].version == h[start].version
  {
    assert EntryOk(h, k);
    if h[k].status == UpdateGranted {
      start := k;
    } else {
      start := SegmentStart(h, k - 1);
    }
  }

  /** The shape of a status history, entry by entry. */
  ghost predicate HistoryShape(h: seq<HistoryEntry>)
    requires h != []
  {
    && (h[0].status == UpdateGranted || h[0] == HistoryEntry(OnHold, None))
    && (h[0].status == UpdateGranted <==> forall k | 0 <= k < |h| :: h[k].version.Some?)
    && (forall k | 0 < k < |h| :: h[k].status != h[k - 1].status && h[k].version.Some?)
    && (forall k | 0 <= k < |h| && BusyStatus(h[k].status) :: OpenedByGrant(h, k))
  }

  /** Entry `k` belongs to a segment that a grant of the same version opened. */
  ghost predicate OpenedByGrant(h: seq<HistoryEntry>, k: nat)
    requires k < |h|
  {
    exists start {:trigger h[start]} ::
      && 0 <= start < k && h[start].status == UpdateGranted
      && forall j | start < j <= k :: BusyStatus(h[j].status) && h[j].version == h[start].version
  }

  lemma {:induction false} HistoryHasShape(h: seq<HistoryEntry>)
    requires HistoryOk(h) && h != []
    ensures HistoryShape(h)
  {
    assert EntryOk(h, 0);
    forall k | 0 <= k < |h|
      ensures h[k].version.None? <==> k == 0 && h[0].status == OnHold
      ensures k > 0 ==> h[k].status != h[k - 1].status
    {
      NullVersionOnlyFirst(h, k);
      assert EntryOk(h, k);
    }
    forall k | 0 <= k < |h| && BusyStatus(h[k].status)
      ensures OpenedByGrant(h, k)
    {
      var start := SegmentStart(h, k);
    }
  }

  /**
   The status history of every instance in every run: it starts with a grant or, when the very first
   decision was to hold the instance back, with one on-hold entry without version; it never repeats
   a status twice in a row; it ends with the row's status and granted version; and every
   download or install entry belongs to a segment that a grant of the same version opened.
   */
  lemma {:induction false} HistoryOfEveryRun(node: Node, groups: map<string, Group>, steps: seq<Step>, instance: string)
    requires instance in Exec(Fresh(groups), node, steps).rows
    requires Exec(Fresh(groups), node, steps).rows[instance].history != []
    ensures var row := Exec(Fresh(groups), node, steps).rows[instance];
            && HistoryShape(row.history)
            && Some(row.history[|row.history| - 1].status) == row.status
            && row.history[|row.history| - 1].version == row.lastUpdateVersion
  {
    hide Exec, HistoryShape, HistoryOk;
    RunsKeepDbOk(node, groups, steps);
    HistoryHasShape(Exec(Fresh(groups), node, steps).rows[instance].history);
  }
}
