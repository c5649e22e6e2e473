/**
 How many updates a group can have under way.

 The statistics skip a row that has been silent for a day, while its grant may still be recent. The
 limit therefore holds over every run exactly when both intervals of the policy are short enough for
 a recent grant to imply a recent check-in.
 */
module Rollout {
  import opened Versions
  import opened Wrappers
  import opened Runtime
  import opened RuntimeRuns

  /** Both policy intervals end at least the five minutes of unrecorded check-ins before a row falls silent. */
  predicate IntervalsShort(period: int, timeout: int) {
    period + RECENT <= VALIDITY && timeout + RECENT < VALIDITY
  }

  predicate SameLimits(a: Policy, b: Policy) {
    && a.periodInterval == b.periodInterval && a.updateTimeout == b.updateTimeout
    && a.maxUpdates == b.maxUpdates && a.safeMode == b.safeMode
  }

  /** The limit as an administrator understands it; safe mode always admits one update. */
  function Limit(p: Policy): int {
    if p.safeMode && p.maxUpdates < 1 then 1 else p.maxUpdates
  }

  /** The policy is one that is enforced at all. */
  predicate Enforced(p: Policy) {
    p.maxUpdates >= 0 && (p.safeMode || p.maxUpdates < MAX_PARALLEL_UPDATES)
  }

  /** A step that leaves the group's limits alone and moves no instance into the group. */
  predicate Settled(db: Db, action: Action, group: string, p: Policy) {
    match action
    case RegularCheck(req, _) => req.group == group && req.instance in db.rows ==> db.rows[req.instance].group == group
    case MirrorCheck(req, _) => req.group == group && req.instance in db.rows ==> db.rows[req.instance].group == group
    case Ping(req) => req.group == group && req.instance in db.rows ==> db.rows[req.instance].group == group
    case GroupUpdate(g, policy) => g == group ==> SameLimits(policy, p)
    case _ => true
  }

  /** A run with fixed membership and limits of `group`, its clock never going back. */
  ghost predicate SettledRun(db: Db, node: Node, steps: seq<Step>, group: string, p: Policy) {
    steps == [] ||
    var n := |steps| - 1;
    && SettledRun(db, node, steps[..n], group, p)
    && (n > 0 ==> steps[n - 1].now <= steps[n].now)
    && Settled(Exec(db, node, steps[..n]), steps[n].action, group, p)
  }

  // ----- the counts without the validity filter -----

  function RecentGrants(db: Db, group: string, period: int, now: int): set<string> {
    set i | i in db.rows && db.rows[i].group == group && !IsFake(i) && GrantedInPeriod(db.rows[i], period, now)
  }

  function RunningUpdates(db: Db, group: string, timeout: int, now: int): set<string> {
    set i | i in db.rows && db.rows[i].group == group && !IsFake(i) && RunningInTime(db.rows[i], timeout, now)
  }

  /** A grant is at most five minutes younger than the check-in on record. */
  ghost predicate GrantsFollowCheckIns(db: Db, now: int) {
    forall i | i in db.rows ::
      && db.rows[i].lastCheck <= now
      && (db.rows[i].grantedAt.Some? ==> db.rows[i].grantedAt.value <= db.rows[i].lastCheck + RECENT)
  }

  lemma SubsetSize<T>(a: set<T>, b: set<T>)
    requires a <= b
    ensures |a| <= |b|
  {
    if a != {} {
      var x :| x in a;
      SubsetSize(a - {x}, b - {x});
    }
  }

  lemma CountsAreComplete(db: Db, group: string, period: int, timeout: int, now: int)
    requires GrantsFollowCheckIns(db, now) && IntervalsShort(period, timeout)
    ensures GrantedCount(db, group, period, now) == |RecentGrants(db, group, period, now)|
    ensures InProgressCount(db, group, timeout, now) == |RunningUpdates(db, group, timeout, now)|
  {
    assert (set i | i in db.rows && Counted(i, db.rows[i], group, now) && GrantedInPeriod(db.rows[i], period, now))
        == RecentGrants(db, group, period, now);
    assert (set i | i in db.rows && Counted(i, db.rows[i], group, now) && RunningInTime(db.rows[i], timeout, now))
        == RunningUpdates(db, group, timeout, now);
  }

  /** Compared with `before`, no update was added to the group. */
  ghost predicate NoneAdded(before: Db, after: Db, group: string) {
    forall i | i in after.rows && after.rows[i].group == group && after.rows[i].grantedAt.Some? ::
      && i in before.rows && before.rows[i].group == group
      && before.rows[i].grantedAt == after.rows[i].grantedAt
      && (after.rows[i].inProgress ==> before.rows[i].inProgress)
  }

  ghost predicate WithinLimit(db: Db, group: string, p: Policy, now: int) {
    && |RecentGrants(db, group, p.periodInterval, now)| <= Limit(p)
    && |RunningUpdates(db, group, p.updateTimeout, now)| <= Limit(p)
  }

  lemma NoneAddedKeepsLimit(before: Db, after: Db, group: string, p: Policy, then': int, now: int)
    requires NoneAdded(before, after, group) && then' <= now && WithinLimit(before, group, p, then')
    ensures WithinLimit(after, group, p, now)
  {
    SubsetSize(RecentGrants(after, group, p.periodInterval, now), RecentGrants(before, group, p.periodInterval, then'));
    SubsetSize(RunningUpdates(after, group, p.updateTimeout, now),
        RunningUpdates(before, group, p.updateTimeout, then'));
  }

  // ----- one step -----

  /** After a registration the row is on record in the requested group with the requested version. */
  lemma RegisterCurrent(db: Db, now: int, req: Request)
    requires Register(db, now, req).Some?
    ensures var db' := Register(db, now, req).value.db;
            && req.instance in db'.rows
            && db'.rows[req.instance].group == req.group
            && Some(db'.rows[req.instance].version) == req.version
            && db'.rows[req.instance].lastCheck >= now - RECENT
  {
  }

  lemma RegisterAddsNone(db: Db, now: int, req: Request, group: string, last: int)
    requires Register(db, now, req).Some? && GrantsFollowCheckIns(db, last) && last <= now
    requires req.group == group && req.instance in db.rows ==> db.rows[req.instance].group == group
    ensures NoneAdded(db, Register(db, now, req).value.db, group)
    ensures GrantsFollowCheckIns(Register(db, now, req).value.db, now)
  {
    var db' := Register(db, now, req).value.db;
    forall i | i in db'.rows
      ensures i != req.instance ==> i in db.rows && db'.rows[i] == db.rows[i]
    {
    }
  }

  /** A new grant: the policy let it through, so both counts were below the limit. */
  lemma GrantKeepsLimit(db: Db, clock: Clock, instance: string, v: Version, group: string, p: Policy)
    requires group in db.groups && instance in db.rows && db.rows[instance].group == group
    requires SameLimits(db.groups[group].policy, p) && Enforced(p) && IntervalsShort(p.periodInterval, p.updateTimeout)
    requires GrantsFollowCheckIns(db, clock.now)
    requires Refusal(db, clock, group).None?
    ensures var granted := Changed(db.rows[instance], Grant(v, clock.now));
            WithinLimit(db.(rows := db.rows[instance := granted]), group, p, clock.now)
  {
    CountsAreComplete(db, group, p.periodInterval, p.updateTimeout, clock.now);
    var db' := db.(rows := db.rows[instance := Changed(db.rows[instance], Grant(v, clock.now))]);
    SubsetSize(RecentGrants(db', group, p.periodInterval, clock.now),
               RecentGrants(db, group, p.periodInterval, clock.now) + {instance});
    SubsetSize(RunningUpdates(db', group, p.updateTimeout, clock.now),
               RunningUpdates(db, group, p.updateTimeout, clock.now) + {instance});
  }

  ghost predicate Bounded(db: Db, group: string, p: Policy, now: int) {
    && DbOk(db)
    && group in db.groups && SameLimits(db.groups[group].policy, p)
    && GrantsFollowCheckIns(db, now)
    && WithinLimit(db, group, p, now)
  }

  /** Status writes never start an update. */
  lemma WriteStatusAddsNone(db: Db, now: int, instance: string, s: Status, group: string)
    ensures var db' := WriteStatus(db, now, instance, s);
            && NoneAdded(db, db', group) && db'.groups == db.groups
            && (GrantsFollowCheckIns(db, now) ==> GrantsFollowCheckIns(db', now))
  {
  }

  lemma GrantOrRefuseKeepsBounded(db: Db, clock: Clock, instance: string, snapshot: Option<Row>, target: string,
                                  v: Version, group: string, p: Policy)
    requires Bounded(db, group, p, clock.now) && Enforced(p) && IntervalsShort(p.periodInterval, p.updateTimeout)
    requires target in db.groups && instance in db.rows && db.rows[instance].group == target
    requires snapshot.Some? ==> SameProgress(snapshot.value, db.rows[instance])
    requires db.rows[instance].lastCheck >= clock.now - RECENT
    ensures var db' := GrantOrRefuse(db, clock, instance, snapshot, target, v).db;
            && group in db'.groups && SameLimits(db'.groups[group].policy, p)
            && GrantsFollowCheckIns(db', clock.now)
            && WithinLimit(db', group, p, clock.now)
  {
    hide WithinLimit, Refusal, FetchRow, DbOk;
    var db' := GrantOrRefuse(db, clock, instance, snapshot, target, v).db;
    match Refusal(db, clock, target)
    case Some(why) =>
      var braked := if why == MaxTimedOutUpdatesLimitReached then Braked(db, target) else db;
      WriteStatusAddsNone(braked, clock.now, instance, OnHold, group);
      NoneAddedKeepsLimit(db, db', group, p, clock.now, clock.now);
    case None =>
      if snapshot.None? || snapshot.value.status == Some(UpdateGranted) || target != group {
        NoneAddedKeepsLimit(db, db', group, p, clock.now, clock.now);
      } else {
        GrantKeepsLimit(db, clock, instance, v, group, p);
        var granted := db.(rows := db.rows[instance := Changed(db.rows[instance], Grant(v, clock.now))]);
        NoneAddedKeepsLimit(granted, db', group, p, clock.now, clock.now);
      }
  }

  lemma CheckEffectKeepsBounded(db1: Db, clock: Clock, req: Request, snapshot: Option<Row>, v: Version, db2: Db,
                                group: string, p: Policy)
    requires Bounded(db1, group, p, clock.now) && Enforced(p) && IntervalsShort(p.periodInterval, p.updateTimeout)
    requires req.instance in db1.rows && db1.rows[req.instance].group == req.group && req.group in db1.groups
    requires snapshot.Some? ==> SameProgress(snapshot.value, db1.rows[req.instance])
    requires db1.rows[req.instance].lastCheck >= clock.now - RECENT
    requires CheckEffect(db1, clock, req, snapshot, v, db2)
    ensures DbOk(db2) ==> Bounded(db2, group, p, clock.now)
  {
    GrantOrRefuseKeepsBounded(db1, clock, req.instance, snapshot, req.group, v, group, p);
    var completed := WriteData(db1, req.instance, snapshot, SetStatus(Complete));
    NoneAddedKeepsLimit(db1, completed, group, p, clock.now, clock.now);
  }

  lemma CheckKeepsBounded(db: Db, cfg: Config, clock: Clock, req: Request, db2: Db, group: string, p: Policy, last: int)
    requires Bounded(db, group, p, last) && last <= clock.now
    requires Enforced(p) && IntervalsShort(p.periodInterval, p.updateTimeout)
    requires req.group == group && req.instance in db.rows ==> db.rows[req.instance].group == group
    requires db2 == Check(db, cfg, clock, req).db || db2 == SyncerCheck(db, cfg, clock, req).db
    ensures Bounded(db2, group, p, clock.now)
  {
    CheckKeepsDbOk(db, cfg, clock, req);
    SyncerCheckKeepsDbOk(db, cfg, clock, req);
    if Register(db, clock.now, req).None? {
      NoneAddedKeepsLimit(db, db, group, p, last, clock.now);
    } else {
      RegisterKeepsBounded(db, clock.now, req, group, p, last);
      var Registration(db1, snapshot) := Register(db, clock.now, req).value;
      var v := CheckHasEffect(db, cfg, clock, req);
      var v' := SyncerCheckHasEffect(db, cfg, clock, req);
      var granted := if db2 == Check(db, cfg, clock, req).db then v else v';
      CheckEffectKeepsBounded(db1, clock, req, snapshot, granted, db2, group, p);
    }
  }

  lemma RegisterKeepsBounded(db: Db, now: int, req: Request, group: string, p: Policy, last: int)
    requires Bounded(db, group, p, last) && last <= now && Register(db, now, req).Some?
    requires req.group == group && req.instance in db.rows ==> db.rows[req.instance].group == group
    ensures var r := Register(db, now, req).value;
            && Bounded(r.db, group, p, now)
            && req.instance in r.db.rows && r.db.rows[req.instance].group == req.group
            && r.db.rows[req.instance].lastCheck >= now - RECENT
            && (r.snapshot.Some? ==> SameProgress(r.snapshot.value, r.db.rows[req.instance]))
  {
    RegisterKeepsDbOk(db, now, req);
    RegisterCurrent(db, now, req);
    RegisterAddsNone(db, now, req, group, last);
    NoneAddedKeepsLimit(db, Register(db, now, req).value.db, group, p, last, now);
  }

  lemma EventKeepsBounded(db: Db, cfg: Config, now: int, e: Event, group: string, p: Policy, last: int)
    requires Bounded(db, group, p, last) && last <= now
    ensures Bounded(HandleEvent(db, cfg, now, e).db, group, p, now)
  {
    EventKeepsDbOk(db, cfg, now, e);
    var s := EventHasEffect(db, cfg, now, e);
    WriteStatusAddsNone(db, now, e.instance, s, group);
    NoneAddedKeepsLimit(db, HandleEvent(db, cfg, now, e).db, group, p, last, now);
  }

  lemma ApplyKeepsBounded(db: Db, node: Node, step: Step, group: string, p: Policy, last: int)
    requires Bounded(db, group, p, last) && last <= step.now
    requires Enforced(p) && IntervalsShort(p.periodInterval, p.updateTimeout)
    requires Settled(db, step.action, group, p)
    ensures Bounded(Apply(db, node, step), group, p, step.now)
  {
    hide Check, SyncerCheck, Register, HandleEvent, WithinLimit;
    var action := step.action;
    if action.RegularCheck? || action.MirrorCheck? {
      CheckKeepsBounded(db, node.cfg, Clock(step.now, action.officeHours), action.req, Apply(db, node, step), group, p,
          last);
    } else if action.Ping? {
      if Register(db, step.now, action.req).Some? {
        RegisterKeepsBounded(db, step.now, action.req, group, p, last);
      } else {
        NoneAddedKeepsLimit(db, db, group, p, last, step.now);
      }
    } else if action.Report? {
      EventKeepsBounded(db, node.cfg, step.now, action.event, group, p, last);
    } else {
      OthersKeepBounded(db, node, step, group, p, last);
    }
  }

  lemma OthersKeepRows(db: Db, node: Node, step: Step, group: string, p: Policy)
    requires group in db.groups && SameLimits(db.groups[group].policy, p) && Settled(db, step.action, group, p)
    requires !step.action.RegularCheck? && !step.action.MirrorCheck? && !step.action.Ping? && !step.action.Report?
    ensures var after := Apply(db, node, step);
            after.rows == db.rows && group in after.groups && SameLimits(after.groups[group].policy, p)
  {
  }

  lemma OthersKeepBounded(db: Db, node: Node, step: Step, group: string, p: Policy, last: int)
    requires Bounded(db, group, p, last) && last <= step.now
    requires Enforced(p) && IntervalsShort(p.periodInterval, p.updateTimeout)
    requires Settled(db, step.action, group, p)
    requires !step.action.RegularCheck? && !step.action.MirrorCheck? && !step.action.Ping? && !step.action.Report?
    ensures Bounded(Apply(db, node, step), group, p, step.now)
  {
    ApplyKeepsDbOk(db, node, step);
    OthersKeepRows(db, node, step, group, p);
    hide Apply, DbOk, WithinLimit;
    NoneAddedKeepsLimit(db, Apply(db, node, step), group, p, last, step.now);
  }

  lemma {:induction false} SettledRunsStayBounded(node: Node, groups: map<string, Group>, steps: seq<Step>,
      group: string, start: int)
    requires group in groups && SettledRun(Fresh(groups), node, steps, group, groups[group].policy)
    requires Enforced(groups[group].policy)
    requires IntervalsShort(groups[group].policy.periodInterval, groups[group].policy.updateTimeout)
    requires steps != [] ==> start <= steps[0].now
    decreases |steps|
    ensures Bounded(Exec(Fresh(groups), node, steps), group, groups[group].policy,
                    if steps == [] then start else steps[|steps| - 1].now)
  {
    var db, p := Fresh(groups), groups[group].policy;
    if steps == [] {
      assert RecentGrants(db, group, p.periodInterval, start) == {};
      assert RunningUpdates(db, group, p.updateTimeout, start) == {};
    } else {
      var n := |steps| - 1;
      SettledRunsStayBounded(node, groups, steps[..n], group, start);
      var last := if n == 0 then start else steps[n - 1].now;
      ApplyKeepsBounded(Exec(db, node, steps[..n]), node, steps[n], group, p, last);
    }
  }

  /** The limit is respected: neither count exceeds it at the end of the run or at any later time. */
  ghost predicate LimitRespected(db: Db, group: string, p: Policy, now: int) {
    && GrantedCount(db, group, p.periodInterval, now) <= Limit(p)
    && InProgressCount(db, group, p.updateTimeout, now) <= Limit(p)
  }

  /**
   The rollout bound. With fixed membership and limits, over any run of checks, events, pings and
   clock ticks, the updates granted in the current period and the updates in progress each stay
   within the limit, provided the intervals are short.
   */
  lemma RolloutBound(node: Node, groups: map<string, Group>, steps: seq<Step>, group: string, now: int)
    requires group in groups && SettledRun(Fresh(groups), node, steps, group, groups[group].policy)
    requires Enforced(groups[group].policy)
    requires IntervalsShort(groups[group].policy.periodInterval, groups[group].policy.updateTimeout)
    requires steps != [] ==> steps[|steps| - 1].now <= now
    ensures LimitRespected(Exec(Fresh(groups), node, steps), group, groups[group].policy, now)
  {
    var p, db := groups[group].policy, Exec(Fresh(groups), node, steps);
    SettledRunsStayBounded(node, groups, steps, group, if steps == [] then now else steps[0].now);
    var last := if steps == [] then now else steps[|steps| - 1].now;
    NoneAddedKeepsLimit(db, db, group, p, last, now);
    CountsAreComplete(db, group, p.periodInterval, p.updateTimeout, now);
  }

  /**
   A grant in safe mode while no attempt at the channel's version has ended: afterwards this is the
   only counted grant of the period and the only counted update in progress.
   */
  lemma SafeModeGrantIsAlone(db: Db, clock: Clock, instance: string, v: Version, group: string)
    requires instance in db.rows && group in db.groups && db.groups[group].policy.safeMode
    requires AttemptedCount(db, group, db.groups[group].TargetVersion(), clock.now) == 0
    requires GrantOrRefuse(db, clock, instance, Some(db.rows[instance]), group, v).result.Ok?
    ensures var db' := GrantOrRefuse(db, clock, instance, Some(db.rows[instance]), group, v).db;
            var p := db.groups[group].policy;
            && GrantedCount(db', group, p.periodInterval, clock.now) <= 1
            && InProgressCount(db', group, p.updateTimeout, clock.now) <= 1
  {
    var db' := GrantOrRefuse(db, clock, instance, Some(db.rows[instance]), group, v).db;
    var p := db.groups[group].policy;
    var granted := set i | i in db.rows && Counted(i, db.rows[i], group, clock.now)
                           && GrantedInPeriod(db.rows[i], p.periodInterval, clock.now);
    var running := set i | i in db.rows && Counted(i, db.rows[i], group, clock.now)
                           && RunningInTime(db.rows[i], p.updateTimeout, clock.now);
    assert |granted| == 0 && |running| == 0;
    assert forall i | i in db.rows :: i !in granted && i !in running;
    var granted' := set i | i in db'.rows && Counted(i, db'.rows[i], group, clock.now)
                            && GrantedInPeriod(db'.rows[i], p.periodInterval, clock.now);
    var running' := set i | i in db'.rows && Counted(i, db'.rows[i], group, clock.now)
                            && RunningInTime(db'.rows[i], p.updateTimeout, clock.now);
    SubsetSize(granted', {instance});
    SubsetSize(running', {instance});
  }
}
