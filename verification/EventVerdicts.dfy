/**
 What becomes of an event: when it is accepted, what it leaves in the instance's row, and when it ends the rollout
 of the group. All of it is told by the rows, for fleets of any size.
 */
module EventVerdicts {
  import opened Versions
  import opened Wrappers
  import opened Floors
  import opened Runtime
  import opened RuntimeRuns
  import opened Brake
  import opened Verdicts

  // ----- acceptance -----

  /** The instance is on record, was heard of within a day, and has an update under way. */
  predicate UnderWay(db: Db, now: int, i: string) {
    i in db.instances && i in db.rows && now < db.rows[i].lastCheck + VALIDITY && db.rows[i].inProgress
  }

  /** The completion event that a Flatcar machine sends after a reboot that updated nothing. */
  predicate AlreadyUpdated(cfg: Config, e: Event) {
    && cfg.isFlatcar && e.etype == EVENT_UPDATE_COMPLETE && e.result == RESULT_SUCCESS_REBOOT
    && e.previousVersion in {"", "0.0.0.0"}
  }

  /** The pairs of type and result that the server knows. */
  predicate Known(e: Event) {
    if e.etype == EVENT_UPDATE_COMPLETE then e.result in {RESULT_FAILED, RESULT_SUCCESS, RESULT_SUCCESS_REBOOT}
    else
      && e.etype in {EVENT_UPDATE_DOWNLOAD_STARTED, EVENT_UPDATE_DOWNLOAD_FINISHED, EVENT_UPDATE_INSTALLED}
      && e.result == RESULT_SUCCESS
  }

  predicate Accepted(db: Db, cfg: Config, now: int, e: Event) {
    e.group in db.groups && UnderWay(db, now, e.instance) && !AlreadyUpdated(cfg, e) && Known(e)
  }

  /** Which events are accepted, and why the others are not. */
  lemma {:induction false} EventAnswerIff(db: Db, cfg: Config, now: int, e: Event)
    ensures var error := HandleEvent(db, cfg, now, e).error;
            var seen := e.instance in db.rows && now < db.rows[e.instance].lastCheck + VALIDITY;
            && (error == None <==> Accepted(db, cfg, now, e))
            && (error == Some(InvalidInstance) <==> e.group in db.groups && e.instance !in db.instances)
            && (error == Some(InvalidApplicationOrGroup) <==>
                  e.group !in db.groups || (e.instance in db.instances && !seen))
            && (error == Some(NoUpdateInProgress) <==>
                  e.group in db.groups && e.instance in db.instances && seen && !db.rows[e.instance].inProgress)
            && (error == Some(FlatcarEventIgnored) <==>
                  e.group in db.groups && UnderWay(db, now, e.instance) && AlreadyUpdated(cfg, e))
            && (error == Some(InvalidEventTypeOrResult) <==>
                  e.group in db.groups && UnderWay(db, now, e.instance) && !AlreadyUpdated(cfg, e) && !Known(e))
  {
    hide Consequences, WriteData;
  }

  // ----- the row -----

  predicate Completes(cfg: Config, e: Event) {
    && e.etype == EVENT_UPDATE_COMPLETE
    && (e.result == RESULT_SUCCESS_REBOOT || (e.result == RESULT_SUCCESS && !cfg.isFlatcar))
  }

  predicate Fails(e: Event) {
    e.etype == EVENT_UPDATE_COMPLETE && e.result == RESULT_FAILED
  }

  /** The row once its status is `s` and its version `version`; an update that has ended is not in progress. */
  function WithStatus(row: Row, s: Status, ended: bool, version: Version): Row {
    if row.status == Some(s) then row
    else
      row.(status := Some(s), inProgress := row.inProgress && !ended, version := version,
           history := row.history + [HistoryEntry(s, row.lastUpdateVersion)])
  }

  /** What an event leaves in the row of its instance. */
  function RowAfter(cfg: Config, row: Row, e: Event): Row
    requires row.lastUpdateVersion.Some?
  {
    if AlreadyUpdated(cfg, e) then WithStatus(row, Undefined, true, row.version)
    else if Completes(cfg, e) then WithStatus(row, Complete, true, row.lastUpdateVersion.value)
    else if Fails(e) then WithStatus(row, Error, true, row.version)
    else if e.etype == EVENT_UPDATE_DOWNLOAD_STARTED then WithStatus(row, Downloading, false, row.version)
    else if e.etype == EVENT_UPDATE_DOWNLOAD_FINISHED then WithStatus(row, Downloaded, false, row.version)
    else if e.etype == EVENT_UPDATE_INSTALLED then WithStatus(row, Installed, false, row.version)
    else row
  }

  /** An accepted event writes the row of its instance, a refused one nothing but the Flatcar reset. */
  lemma {:induction false} EventIsRecorded(db: Db, cfg: Config, now: int, e: Event)
    requires DbOk(db)
    ensures var out := HandleEvent(db, cfg, now, e);
            && out.db.instances == db.instances
            && (out.error in {None, Some(FlatcarEventIgnored)} ==>
                  && e.instance in db.rows && db.rows[e.instance].lastUpdateVersion.Some?
                  && out.db.rows == db.rows[e.instance := RowAfter(cfg, db.rows[e.instance], e)])
            && (out.error !in {None, Some(FlatcarEventIgnored)} ==> out.db == db)
  {
    EventAnswerIff(db, cfg, now, e);
    if e.group in db.groups && UnderWay(db, now, e.instance) {
      var row := db.rows[e.instance];
      assert RowOk(row) && FetchRow(db, now, e.instance) == Some(row) && db.rows == db.rows[e.instance := row];
      StatusIsRecorded(db, now, e.instance, Undefined);
      if Known(e) {
        ConsequencesEffect(db, cfg, now, e);
        KnownLeadsTo(cfg, e);
        if EventStatus(cfg, e.etype, e.result).Some? {
          StatusIsRecorded(db, now, e.instance, EventStatus(cfg, e.etype, e.result).value);
        }
      }
    }
    hide Consequences, WriteStatus, WriteData, Changed, DbOk, RowOk, EventStatus, WithStatus, KnownEvent;
  }

  /** Where an event that the server knows leads. */
  lemma KnownLeadsTo(cfg: Config, e: Event)
    requires Known(e)
    ensures EventStatus(cfg, e.etype, e.result)
            == if Completes(cfg, e) then Some(Complete)
               else if Fails(e) then Some(Error)
               else if e.etype == EVENT_UPDATE_DOWNLOAD_STARTED then Some(Downloading)
               else if e.etype == EVENT_UPDATE_DOWNLOAD_FINISHED then Some(Downloaded)
               else if e.etype == EVENT_UPDATE_INSTALLED then Some(Installed)
               else None
  {
  }

  lemma StatusIsRecorded(db: Db, now: int, i: string, s: Status)
    requires i in db.rows && FetchRow(db, now, i) == Some(db.rows[i]) && db.rows[i].lastUpdateVersion.Some?
    requires s in {Undefined, Complete, Error, Downloading, Downloaded, Installed}
    ensures var row, ended := db.rows[i], s in {Undefined, Complete, Error};
            var row' := WithStatus(row, s, ended, if s == Complete then row.lastUpdateVersion.value else row.version);
            && WriteStatus(db, now, i, s).rows == db.rows[i := row']
            && WriteData(db, i, Some(row), SetStatus(s)).rows == db.rows[i := row']
            && WriteData(db, i, Some(row), SetStatus(s)).instances == db.instances
  {
    assert db.rows == db.rows[i := db.rows[i]];
  }

  // ----- the rollout -----

  /** Every counted instance of the group was granted the channel's version, runs it, and is not updating. */
  ghost predicate AllThere(db: Db, group: string, now: int)
    requires group in db.groups
  {
    forall i | i in Members(db, group, now) ::
      && !db.rows[i].inProgress && db.groups[group].HasPackage()
      && db.rows[i].lastUpdateVersion == Some(db.groups[group].channel.value.target.value.version)
      && db.rows[i].version == db.groups[group].channel.value.target.value.version
  }

  /** An attempt at the version of the group's channel that has ended. */
  ghost predicate EndedAttempt(db: Db, group: string, now: int, i: string)
    requires group in db.groups
  {
    && i in Members(db, group, now) && !db.rows[i].inProgress && db.groups[group].HasPackage()
    && db.rows[i].lastUpdateVersion == Some(db.groups[group].channel.value.target.value.version)
  }

  ghost predicate OneAttempt(db: Db, group: string, now: int)
    requires group in db.groups
  {
    exists i :: EndedAttempt(db, group, now, i) && forall j | EndedAttempt(db, group, now, j) :: j == i
  }

  /** A step that grants an update of the group; a syncer may get the same grant again. */
  predicate Begins(db: Db, node: Node, step: Step, group: string) {
    match step.action
    case RegularCheck(req, _) =>
      req.group == group && GrantsOf(Apply(db, node, step), req.instance) > GrantsOf(db, req.instance)
    case MirrorCheck(req, officeHours) =>
      req.group == group && SyncerCheck(db, node.cfg, Clock(step.now, officeHours), req).result.Ok?
    case _ => false
  }

  /** An accepted completion after which every instance is there, or a first attempt that failed. */
  ghost predicate Ends(db: Db, node: Node, step: Step, group: string)
    requires group in db.groups
  {
    && step.action.Report? && step.action.event.group == group
    && var e, after := step.action.event, Apply(db, node, step);
       && Accepted(db, node.cfg, step.now, e) && group in after.groups
       && ((Completes(node.cfg, e) && AllThere(after, group, step.now))
           || (Fails(e) && node.cfg.disableUpdatesOnFailedRollout && OneAttempt(after, group, step.now)))
  }

  /** A rollout begins with a grant, and ends exactly when the last instance is there or the first attempt fails. */
  lemma {:induction false} RolloutAfter(db: Db, node: Node, step: Step, group: string)
    requires group in db.groups
    ensures var after := Apply(db, node, step);
            && group in after.groups
            && after.groups[group].rolloutInProgress
               == if Begins(db, node, step, group) then true
                  else if Ends(db, node, step, group) then false
                  else db.groups[group].rolloutInProgress
  {
    hide Check, SyncerCheck, HandleEvent, Register, GrantsOf;
    var action := step.action;
    if action.RegularCheck? {
      CheckRollout(db, node.cfg, Clock(step.now, action.officeHours), action.req, group);
    } else if action.MirrorCheck? {
      SyncerRollout(db, node.cfg, Clock(step.now, action.officeHours), action.req, group);
    } else if action.Report? {
      EventRollout(db, node, step, group);
    }
  }

  lemma {:induction false} PolicyRollout(db: Db, clock: Clock, i: string, snapshot: Option<Row>, target: string,
      v: Version, group: string)
    requires group in db.groups && target in db.groups && (snapshot.Some? ==> i in db.rows)
    ensures var out := GrantOrRefuse(db, clock, i, snapshot, target, v);
            && group in out.db.groups
            && out.db.groups[group].rolloutInProgress
               == (db.groups[group].rolloutInProgress || (group == target && out.result.Ok?))
    ensures var out := GrantOrRefuse(db, clock, i, snapshot, target, v);
            snapshot.Some? && snapshot.value.status != Some(UpdateGranted) ==>
              (out.result.Ok? <==> GrantsOf(out.db, i) > GrantsOf(db, i))
    ensures snapshot.None? ==> GrantOrRefuse(db, clock, i, snapshot, target, v).result.Err?
  {
    hide Refusal, Grants, WriteStatus;
    if i in db.rows {
      GrantsAfterChange(db.rows[i], Grant(v, clock.now));
    }
    if Refusal(db, clock, target).Some? {
      var why := Refusal(db, clock, target).value;
      var db' := if why == MaxTimedOutUpdatesLimitReached then Braked(db, target) else db;
      StatusGrantsNothing(db', clock.now, i, OnHold, i);
      StatusKeepsGroups(db', clock.now, i, OnHold);
    }
  }

  lemma {:induction false} CheckRollout(db: Db, cfg: Config, clock: Clock, req: Request, group: string)
    requires group in db.groups
    ensures var out := Check(db, cfg, clock, req);
            && group in out.db.groups
            && out.db.groups[group].rolloutInProgress
               == (db.groups[group].rolloutInProgress
                   || (req.group == group && GrantsOf(out.db, req.instance) > GrantsOf(db, req.instance)))
  {
    if Register(db, clock.now, req).Some? {
      var Registration(db1, snapshot) := Register(db, clock.now, req).value;
      RegistrationGrantsNothing(db, clock.now, req, req.instance);
      var g := db1.groups[req.group];
      hide Register, PackagesForUpdate, GrantOrRefuse, GrantsOf, ServeGranted;
      if g.HasPackage() && HoldsGrant(snapshot) {
        ServingGrantsNothing(db1, cfg, req, snapshot.value, g.channel.value);
      } else if g.HasPackage() {
        var next := PackagesForUpdate(g.channel.value, req.version.value, cfg.maxFloors)[0];
        PolicyRollout(db1, clock, req.instance, snapshot, req.group, next.version, group);
      }
    } else {
      hide Register, GrantsOf;
    }
  }

  lemma {:induction false} ServingGrantsNothing(db: Db, cfg: Config, req: Request, row: Row, ch: Channel)
    requires ch.target.Some? && req.instance in db.rows && req.version.Some?
    ensures var after := ServeGranted(db, cfg, req, req.version.value, row, ch).db;
            GrantsOf(after, req.instance) == GrantsOf(db, req.instance) && after.groups == db.groups
  {
    hide Grants, PackagesForUpdate;
    GrantsAfterChange(db.rows[req.instance], SetStatus(Complete));
  }

  lemma {:induction false} SyncerRollout(db: Db, cfg: Config, clock: Clock, req: Request, group: string)
    requires group in db.groups
    ensures var out := SyncerCheck(db, cfg, clock, req);
            && group in out.db.groups
            && out.db.groups[group].rolloutInProgress
               == (db.groups[group].rolloutInProgress || (req.group == group && out.result.Ok?))
  {
    hide Register, PackagesForUpdate, GrantOrRefuse, GrantsOf, SomeBlacklisted;
    if Register(db, clock.now, req).Some? {
      var Registration(db1, snapshot) := Register(db, clock.now, req).value;
      var g := db1.groups[req.group];
      if g.HasPackage() {
        var packages := PackagesForUpdate(g.channel.value, req.version.value, cfg.maxFloors);
        PolicyRollout(db1, clock, req.instance, snapshot, req.group, packages[|packages| - 1].version, group);
      }
    }
  }

  lemma {:induction false} EventRollout(db: Db, node: Node, step: Step, group: string)
    requires group in db.groups && step.action.Report?
    ensures var after := Apply(db, node, step);
            && group in after.groups
            && after.groups[group].rolloutInProgress
               == (db.groups[group].rolloutInProgress && !Ends(db, node, step, group))
  {
    var cfg, now, e := node.cfg, step.now, step.action.event;
    EventAnswerIff(db, cfg, now, e);
    if Accepted(db, cfg, now, e) {
      ConsequencesRollout(db, cfg, now, e, group);
    }
    hide Consequences, WriteData, AllThere, OneAttempt;
  }

  lemma {:induction false} ConsequencesRollout(db: Db, cfg: Config, now: int, e: Event, group: string)
    requires group in db.groups && e.group in db.groups && Known(e)
    ensures var after := Consequences(db, cfg, now, e);
            && group in after.groups && after.groups[group].channel == db.groups[group].channel
            && after.groups[group].rolloutInProgress
               == (db.groups[group].rolloutInProgress
                   && !(group == e.group
                        && ((Completes(cfg, e) && AllThere(after, group, now))
                            || (Fails(e) && cfg.disableUpdatesOnFailedRollout && OneAttempt(after, group, now)))))
  {
    var after := Consequences(db, cfg, now, e);
    KnownLeadsTo(cfg, e);
    if EventStatus(cfg, e.etype, e.result).Some? {
      var db1 := WriteStatus(db, now, e.instance, EventStatus(cfg, e.etype, e.result).value);
      StatusKeepsGroups(db, now, e.instance, EventStatus(cfg, e.etype, e.result).value);
      AllThereIff(db1, e.group, now);
      OneAttemptIff(db1, e.group, now);
      SameRows(db1, after, e.group, now);
    }
    hide SucceededCount, TotalCount, AttemptedCount, AllThere, OneAttempt, WriteStatus, EventStatus, Known;
  }

  /** The predicates look at the rows and the channel only. */
  lemma {:induction false} SameRows(a: Db, b: Db, group: string, now: int)
    requires group in a.groups && group in b.groups && a.rows == b.rows
    requires a.groups[group].channel == b.groups[group].channel
    ensures AllThere(a, group, now) <==> AllThere(b, group, now)
    ensures OneAttempt(a, group, now) <==> OneAttempt(b, group, now)
  {
    assert Members(a, group, now) == Members(b, group, now);
    assert forall i :: EndedAttempt(a, group, now, i) <==> EndedAttempt(b, group, now, i);
  }

  lemma SameSizeIff<T>(a: set<T>, b: set<T>)
    requires a <= b
    ensures |a| == |b| <==> a == b
  {
    assert b * a == a && |b - a| == |b| - |a|;
  }

  lemma {:induction false} AllThereIff(db: Db, group: string, now: int)
    requires group in db.groups
    ensures AllThere(db, group, now) <==>
            SucceededCount(db, group, db.groups[group].TargetVersion(), now) == TotalCount(db, group, now)
  {
    var target := db.groups[group].TargetVersion();
    var all := set i | i in db.rows && Counted(i, db.rows[i], group, now);
    var there := set i | i in db.rows && Counted(i, db.rows[i], group, now) && Attempted(db.rows[i], target)
                         && Some(db.rows[i].version) == target;
    assert all == Members(db, group, now);
    SameSizeIff(there, all);
    hide Counted, IsFake;
    assert there == all <==> forall i | i in all :: i in there;
  }

  lemma {:induction false} OneAttemptIff(db: Db, group: string, now: int)
    requires group in db.groups
    ensures OneAttempt(db, group, now) <==> AttemptedCount(db, group, db.groups[group].TargetVersion(), now) == 1
  {
    var target := db.groups[group].TargetVersion();
    var ended := set i | i in db.rows && Counted(i, db.rows[i], group, now) && Attempted(db.rows[i], target);
    assert AttemptedCount(db, group, target, now) == |ended|;
    OneElementIff(ended);
    hide AttemptedCount, IsFake;
    assert forall i :: i in ended <==> EndedAttempt(db, group, now, i);
    hide EndedAttempt;
    assert forall i :: Alone(ended, i) <==>
        EndedAttempt(db, group, now, i) && forall j | EndedAttempt(db, group, now, j) :: j == i;
  }

  predicate Alone<T(==)>(s: set<T>, x: T) {
    x in s && forall y | y in s :: y == x
  }

  lemma OneElementIff<T>(s: set<T>)
    ensures |s| == 1 <==> exists x :: Alone(s, x)
  {
    if |s| == 1 {
      var x :| x in s;
      SameSizeIff({x}, s);
      assert s == {x} && Alone(s, x);
    }
    if x :| Alone(s, x) {
      assert s == {x};
    }
  }
}
