/**
 The safe-mode brake: a node-local override of a group's updates-enabled flag. The server trips it by
 itself; a deployment in single mode releases it when a group update re-enables updates, a distributed
 one only on an explicit request.
 */
module Brake {
  import opened Versions
  import opened Wrappers
  import opened Floors
  import opened Runtime
  import opened RuntimeRuns
  import opened RuntimeService

  const HTTP_OK := 200
  const HTTP_NO_CONTENT := 204
  const HTTP_NOT_FOUND := 404
  const HTTP_INTERNAL_ERROR := 500
  const HTTP_NOT_IMPLEMENTED := 501

  /** The group requests of the admin and runtime handlers; `single` is the deployment's mode. */
  class GroupHandler {
    const service: Service
    const single: bool

    constructor (service: Service, single: bool)
      ensures this.service == service && this.single == single
    {
      this.service, this.single := service, single;
    }

    /**
     `UpdateGroup`. `accepted` tells whether the group row passes the validations of the update. The
     response shows the effective flag in single mode and the administrator's flag otherwise.
     */
    method UpdateGroup(group: string, policy: Policy, accepted: bool) returns (status: int, shown: bool)
      modifies service`groups
      ensures service.State() == if accepted then RuntimeRuns.UpdateGroup(old(service.State()), single, group, policy)
                                 else old(service.State())
      ensures status == if group !in old(service.groups) then HTTP_NOT_FOUND
                        else if accepted then HTTP_OK else HTTP_INTERNAL_ERROR
      ensures status == HTTP_OK && (single ==> old(service.groups)[group].updatesOverride != Some(true))
              ==> shown == policy.updatesEnabled
    {
      shown := false;
      if group !in service.groups {
        return HTTP_NOT_FOUND, shown;
      }
      var oldGroup := service.groups[group];
      if !accepted {
        return HTTP_INTERNAL_ERROR, shown;
      }
      service.groups := service.groups[group := oldGroup.(policy := policy)];
      if single && !oldGroup.UpdatesEnabled() && policy.updatesEnabled {
        var ok := service.ClearUpdatesEnabledOverride(group);
        assert service.groups == old(service.groups)[group := oldGroup.(policy := policy, updatesOverride := None)];
      }
      var updated := service.groups[group];
      shown := if single then updated.UpdatesEnabled() else updated.policy.updatesEnabled;
      return HTTP_OK, shown;
    }

    /** `ClearGroupUpdatesOverride`. */
    method ClearGroupUpdatesOverride(group: string) returns (status: int)
      modifies service`groups
      ensures service.State() == ClearOverride(old(service.State()), single, group)
      ensures status == if single then HTTP_NOT_IMPLEMENTED
                        else if group in old(service.groups) then HTTP_NO_CONTENT else HTTP_NOT_FOUND
    {
      if single {
        return HTTP_NOT_IMPLEMENTED;
      }
      var ok := service.ClearUpdatesEnabledOverride(group);
      if !ok {
        assert service.groups == old(service.groups);
        return HTTP_NOT_FOUND;
      }
      assert service.groups == old(service.groups)[group := old(service.groups)[group].(updatesOverride := None)];
      return HTTP_NO_CONTENT;
    }
  }

  // ----- what a step does to the override -----

  /** A step that makes this node trip the brake of `group`. */
  predicate Trips(db: Db, node: Node, step: Step, group: string) {
    match step.action
    case RegularCheck(req, officeHours) =>
      req.group == group
      && Check(db, node.cfg, Clock(step.now, officeHours), req).result == Err(MaxTimedOutUpdatesLimitReached)
    case MirrorCheck(req, officeHours) =>
      req.group == group
      && SyncerCheck(db, node.cfg, Clock(step.now, officeHours), req).result == Err(MaxTimedOutUpdatesLimitReached)
    case Report(e) => FirstFailure(db, node.cfg, step.now, e, group)
    case _ => false
  }

  /** An accepted failure report that is the first ended attempt at the group's version. */
  predicate FirstFailure(db: Db, cfg: Config, now: int, e: Event, group: string) {
    && e.group == group && group in db.groups
    && HandleEvent(db, cfg, now, e).error.None?
    && EventStatus(cfg, e.etype, e.result) == Some(Error)
    && cfg.disableUpdatesOnFailedRollout
    && AttemptedCount(WriteStatus(db, now, e.instance, Error), group, db.groups[group].TargetVersion(), now) == 1
  }

  /** A step that releases the brake of `group`. */
  predicate Releases(db: Db, node: Node, step: Step, group: string) {
    match step.action
    case GroupUpdate(g, policy) =>
      g == group && node.single && group in db.groups && !db.groups[group].UpdatesEnabled() && policy.updatesEnabled
    case OverrideClear(g) => g == group && !node.single
    case _ => false
  }

  lemma RefusalTripsBrake(db: Db, clock: Clock, instance: string, snapshot: Option<Row>, target: string, v: Version,
      group: string)
    requires group in db.groups && target in db.groups && (snapshot.Some? ==> instance in db.rows)
    ensures var out := GrantOrRefuse(db, clock, instance, snapshot, target, v);
            && group in out.db.groups
            && out.db.groups[group].updatesOverride
               == if target == group && out.result == Err(MaxTimedOutUpdatesLimitReached) then Some(false)
                  else db.groups[group].updatesOverride
  {
    hide Refusal, WriteStatus;
    match Refusal(db, clock, target)
    case None =>
    case Some(why) =>
      var db' := if why == MaxTimedOutUpdatesLimitReached then Braked(db, target) else db;
      StatusKeepsGroups(db', clock.now, instance, OnHold);
  }

  lemma StatusKeepsGroups(db: Db, now: int, instance: string, s: Status)
    ensures WriteStatus(db, now, instance, s).groups == db.groups
  {
  }

  lemma CheckTripsBrake(db: Db, cfg: Config, clock: Clock, req: Request, group: string)
    requires group in db.groups
    ensures var out := Check(db, cfg, clock, req);
            && group in out.db.groups
            && out.db.groups[group].updatesOverride
               == if req.group == group && out.result == Err(MaxTimedOutUpdatesLimitReached) then Some(false)
                  else db.groups[group].updatesOverride
  {
    hide Register, GrantOrRefuse, PackagesForUpdate;
    match Register(db, clock.now, req)
    case None =>
    case Some(Registration(db1, snapshot)) =>
      var target := db1.groups[req.group];
      if target.HasPackage() {
        var next := PackagesForUpdate(target.channel.value, req.version.value, cfg.maxFloors)[0];
        RefusalTripsBrake(db1, clock, req.instance, snapshot, req.group, next.version, group);
      }
  }

  lemma SyncerCheckTripsBrake(db: Db, cfg: Config, clock: Clock, req: Request, group: string)
    requires group in db.groups
    ensures var out := SyncerCheck(db, cfg, clock, req);
            && group in out.db.groups
            && out.db.groups[group].updatesOverride
               == if req.group == group && out.result == Err(MaxTimedOutUpdatesLimitReached) then Some(false)
                  else db.groups[group].updatesOverride
  {
    hide Register, GrantOrRefuse, PackagesForUpdate;
    match Register(db, clock.now, req)
    case None =>
    case Some(Registration(db1, snapshot)) =>
      var target := db1.groups[req.group];
      if target.HasPackage() {
        var packages := PackagesForUpdate(target.channel.value, req.version.value, cfg.maxFloors);
        RefusalTripsBrake(db1, clock, req.instance, snapshot, req.group, packages[|packages| - 1].version, group);
      }
  }

  lemma EventTripsBrake(db: Db, cfg: Config, now: int, e: Event, group: string)
    requires group in db.groups
    ensures var out := HandleEvent(db, cfg, now, e);
            && group in out.db.groups
            && out.db.groups[group].updatesOverride
               == if FirstFailure(db, cfg, now, e, group) then Some(false) else db.groups[group].updatesOverride
  {
    hide WriteStatus, AttemptedCount, SucceededCount, TotalCount;
    forall s
      ensures WriteStatus(db, now, e.instance, s).groups == db.groups
    {
      StatusKeepsGroups(db, now, e.instance, s);
    }
  }

  /** The override after one step, whatever the step and the mode. */
  lemma {:induction false} OverrideAfter(db: Db, node: Node, step: Step, group: string)
    requires group in db.groups
    ensures var db' := Apply(db, node, step);
            && group in db'.groups
            && db'.groups[group].updatesOverride
               == if Trips(db, node, step, group) then Some(false)
                  else if Releases(db, node, step, group) then None
                  else db.groups[group].updatesOverride
  {
    hide Check, SyncerCheck, HandleEvent, FirstFailure, Register;
    match step.action
    case RegularCheck(req, officeHours) => CheckTripsBrake(db, node.cfg, Clock(step.now, officeHours), req, group);
    case MirrorCheck(req, officeHours) => SyncerCheckTripsBrake(db, node.cfg, Clock(step.now, officeHours), req, group);
    case Report(e) => EventTripsBrake(db, node.cfg, step.now, e, group);
    case _ =>
  }

  // ----- one switch in single mode -----

  ghost predicate NoneForcedOn(groups: map<string, Group>) {
    forall g | g in groups :: groups[g].updatesOverride != Some(true)
  }

  lemma {:induction false} GroupsStay(db: Db, node: Node, steps: seq<Step>)
    ensures Exec(db, node, steps).groups.Keys == db.groups.Keys
  {
    if steps != [] {
      var before := Exec(db, node, steps[..|steps| - 1]);
      GroupsStay(db, node, steps[..|steps| - 1]);
      ApplyKeepsGroups(before, node, steps[|steps| - 1]);
    }
  }

  lemma ApplyKeepsGroups(db: Db, node: Node, step: Step)
    ensures Apply(db, node, step).groups.Keys == db.groups.Keys
  {
    hide Register, GrantOrRefuse, PackagesForUpdate, HandleEvent;
    match step.action
    case RegularCheck(req, officeHours) =>
      if Register(db, step.now, req).Some? {
        var v := CheckHasEffect(db, node.cfg, Clock(step.now, officeHours), req);
        var r := Register(db, step.now, req).value;
        RefusalKeepsGroups(r.db, Clock(step.now, officeHours), req.instance, r.snapshot, req.group, v);
      }
    case MirrorCheck(req, officeHours) =>
      if Register(db, step.now, req).Some? {
        var v := SyncerCheckHasEffect(db, node.cfg, Clock(step.now, officeHours), req);
        var r := Register(db, step.now, req).value;
        RefusalKeepsGroups(r.db, Clock(step.now, officeHours), req.instance, r.snapshot, req.group, v);
      }
    case Report(e) => var s := EventHasEffect(db, node.cfg, step.now, e);
    case _ =>
  }

  lemma RefusalKeepsGroups(db: Db, clock: Clock, instance: string, snapshot: Option<Row>, target: string, v: Version)
    requires target in db.groups && (snapshot.Some? ==> instance in db.rows)
    ensures GrantOrRefuse(db, clock, instance, snapshot, target, v).db.groups.Keys == db.groups.Keys
  {
    hide Refusal;
  }

  /** The server only ever forces updates off: no run turns an override on. */
  lemma {:induction false} OverrideNeverOn(db: Db, node: Node, steps: seq<Step>)
    requires NoneForcedOn(db.groups)
    ensures NoneForcedOn(Exec(db, node, steps).groups)
  {
    hide Apply;
    if steps != [] {
      var n := |steps| - 1;
      OverrideNeverOn(db, node, steps[..n]);
      var before := Exec(db, node, steps[..n]);
      GroupsStay(db, node, steps[..n]);
      GroupsStay(db, node, steps);
      forall g | g in db.groups
        ensures Exec(db, node, steps).groups[g].updatesOverride != Some(true)
      {
        OverrideAfter(before, node, steps[n], g);
      }
    }
  }

  /**
   In single mode there is one switch: whatever happened before, and however often the brake was
   tripped, after a group update the effective flag is the requested one.
   */
  lemma {:induction false} OneSwitch(groups: map<string, Group>, node: Node, steps: seq<Step>, now: int, group: string,
                                     policy: Policy)
    requires NoneForcedOn(groups) && group in groups && node.single
    ensures var db := Exec(Fresh(groups), node, steps + [Step(now, GroupUpdate(group, policy))]);
            group in db.groups && db.groups[group].UpdatesEnabled() == policy.updatesEnabled
  {
    hide Check, SyncerCheck, HandleEvent;
    var last := Step(now, GroupUpdate(group, policy));
    assert (steps + [last])[..|steps|] == steps;
    OverrideNeverOn(Fresh(groups), node, steps);
    GroupsStay(Fresh(groups), node, steps);
  }

  // ----- the brake in a distributed deployment -----

  /** The number of grants an instance has received. */
  function Grants(h: seq<HistoryEntry>): nat {
    if h == [] then 0
    else Grants(h[..|h| - 1]) + (if h[|h| - 1].status == UpdateGranted then 1 else 0)
  }

  function GrantsOf(db: Db, instance: string): nat {
    if instance in db.rows then Grants(db.rows[instance].history) else 0
  }

  lemma {:induction false} GrantsAfterChange(row: Row, change: Change)
    ensures Grants(Changed(row, change).history)
            == Grants(row.history) + (if change.NewStatus() == UpdateGranted then 1 else 0)
  {
    var h' := Changed(row, change).history;
    assert h'[..|h'| - 1] == row.history;
  }

  lemma {:induction false} StatusGrantsNothing(db: Db, now: int, instance: string, s: Status, i: string)
    requires s != UpdateGranted
    ensures GrantsOf(WriteStatus(db, now, instance, s), i) == GrantsOf(db, i)
  {
    hide Grants;
    if instance in db.rows {
      GrantsAfterChange(db.rows[instance], SetStatus(s));
    }
  }

  lemma {:induction false} RegistrationGrantsNothing(db: Db, now: int, req: Request, i: string)
    requires Register(db, now, req).Some?
    ensures GrantsOf(Register(db, now, req).value.db, i) == GrantsOf(db, i)
  {
    RegisterOnlyChecksIn(db, now, req);
    hide Register;
  }

  /** A request asks for an update of `group` on behalf of `i`. */
  predicate AsksFor(action: Action, group: string, i: string) {
    match action
    case RegularCheck(req, _) => req.group == group && req.instance == i
    case MirrorCheck(req, _) => req.group == group && req.instance == i
    case _ => false
  }

  lemma {:induction false} CheckEffectGrants(db1: Db, clock: Clock, req: Request, snapshot: Option<Row>, v: Version,
      db2: Db, i: string)
    requires req.group in db1.groups && (snapshot.Some? ==> req.instance in db1.rows)
    requires CheckEffect(db1, clock, req, snapshot, v, db2)
    ensures GrantsOf(db2, i) == GrantsOf(db1, i) || GrantsOf(db2, i) == GrantsOf(db1, i) + 1
    ensures GrantsOf(db2, i) != GrantsOf(db1, i) ==>
              && i == req.instance && db1.groups[req.group].UpdatesEnabled()
              && (db1.groups[req.group].policy.officeHours ==> clock.officeHours)
  {
    hide Grants, WriteStatus;
    if snapshot.Some? {
      GrantsAfterChange(db1.rows[req.instance], SetStatus(Complete));
      GrantsAfterChange(db1.rows[req.instance], Grant(v, clock.now));
    }
    match Refusal(db1, clock, req.group)
    case Some(why) =>
      var db' := if why == MaxTimedOutUpdatesLimitReached then Braked(db1, req.group) else db1;
      StatusGrantsNothing(db', clock.now, req.instance, OnHold, i);
    case None =>
  }

  predicate InOfficeHours(action: Action) {
    match action
    case RegularCheck(_, officeHours) => officeHours
    case MirrorCheck(_, officeHours) => officeHours
    case _ => false
  }

  /**
   Every grant answers a check for a group in which updates are enabled at that moment, made in office hours if
   the group's policy asks for them.
   */
  lemma {:induction false} GrantNeedsUpdatesEnabled(db: Db, node: Node, step: Step, i: string)
    requires GrantsOf(Apply(db, node, step), i) != GrantsOf(db, i)
    ensures GrantsOf(Apply(db, node, step), i) == GrantsOf(db, i) + 1
    ensures exists g | g in db.groups ::
              && AsksFor(step.action, g, i) && db.groups[g].UpdatesEnabled()
              && (db.groups[g].policy.officeHours ==> InOfficeHours(step.action))
  {
    hide Register, Check, SyncerCheck, HandleEvent, Grants, GrantOrRefuse;
    match step.action
    case RegularCheck(req, officeHours) =>
      if Register(db, step.now, req).Some? {
        var v := CheckHasEffect(db, node.cfg, Clock(step.now, officeHours), req);
        RegistrationGrantsNothing(db, step.now, req, i);
        var r := Register(db, step.now, req).value;
        CheckEffectGrants(r.db, Clock(step.now, officeHours), req, r.snapshot, v, Apply(db, node, step), i);
      } else {
        NothingWithoutRegistration(db, node, step.now, officeHours, req);
      }
    case MirrorCheck(req, officeHours) =>
      if Register(db, step.now, req).Some? {
        var v := SyncerCheckHasEffect(db, node.cfg, Clock(step.now, officeHours), req);
        RegistrationGrantsNothing(db, step.now, req, i);
        var r := Register(db, step.now, req).value;
        CheckEffectGrants(r.db, Clock(step.now, officeHours), req, r.snapshot, v, Apply(db, node, step), i);
      } else {
        NothingWithoutRegistration(db, node, step.now, officeHours, req);
      }
    case Ping(req) =>
      if Register(db, step.now, req).Some? {
        RegistrationGrantsNothing(db, step.now, req, i);
      }
    case Report(e) =>
      EventGrantsNothing(db, node.cfg, step.now, e, i);
    case _ =>
  }

  lemma NothingWithoutRegistration(db: Db, node: Node, now: int, officeHours: bool, req: Request)
    requires Register(db, now, req).None?
    ensures Check(db, node.cfg, Clock(now, officeHours), req).db == db
    ensures SyncerCheck(db, node.cfg, Clock(now, officeHours), req).db == db
  {
    hide Register;
  }

  lemma {:induction false} EventGrantsNothing(db: Db, cfg: Config, now: int, e: Event, i: string)
    ensures GrantsOf(HandleEvent(db, cfg, now, e).db, i) == GrantsOf(db, i)
  {
    hide Grants, WriteStatus, AttemptedCount, SucceededCount, TotalCount;
    if e.instance in db.rows {
      GrantsAfterChange(db.rows[e.instance], SetStatus(Undefined));
    }
    match EventStatus(cfg, e.etype, e.result)
    case None =>
    case Some(s) => StatusGrantsNothing(db, now, e.instance, s, i);
  }

  /**
   In a distributed deployment a tripped brake holds until the explicit clear: over every run without
   one, the override stays, no group update releases it, and no instance that asks for an update of the
   group, or asks for nothing at all, gets a grant.
   */
  lemma {:induction false} BrakeHolds(db: Db, node: Node, steps: seq<Step>, group: string, i: string)
    requires !node.single && group in db.groups && db.groups[group].updatesOverride == Some(false)
    requires forall s | s in steps :: s.action != OverrideClear(group)
    requires forall s, g | s in steps && AsksFor(s.action, g, i) :: g == group
    ensures var db' := Exec(db, node, steps);
            && group in db'.groups && db'.groups[group].updatesOverride == Some(false)
            && GrantsOf(db', i) == GrantsOf(db, i)
  {
    hide Apply, GrantsOf;
    if steps != [] {
      var n := |steps| - 1;
      assert steps[n] in steps;
      BrakeHolds(db, node, steps[..n], group, i);
      var before := Exec(db, node, steps[..n]);
      OverrideAfter(before, node, steps[n], group);
      if GrantsOf(Apply(before, node, steps[n]), i) != GrantsOf(before, i) {
        GrantNeedsUpdatesEnabled(before, node, steps[n], i);
      }
    }
  }
}
