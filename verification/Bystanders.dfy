/** What the requests of one instance leave alone: the rows of other instances, and a group without limits. */
module Bystanders {
  import opened Versions
  import opened Wrappers
  import opened Runtime
  import opened RuntimeRuns

  /** Instance `i` is on record in both tables alike. */
  predicate SameRow(before: Db, after: Db, i: string) {
    && (i in before.instances <==> i in after.instances)
    && (i in before.rows <==> i in after.rows)
    && (i in before.rows ==> after.rows[i] == before.rows[i])
  }

  predicate SameButRollout(before: Group, after: Group) {
    after == before.(rolloutInProgress := after.rolloutInProgress)
  }

  /** The policy sets no limit, so no check can trip the brake. */
  predicate NoLimits(g: Group) {
    g.policy.maxUpdates >= MAX_PARALLEL_UPDATES && !g.policy.safeMode
  }

  lemma WriteElsewhere(db: Db, instance: string, snapshot: Option<Row>, change: Change, i: string)
    requires (snapshot.Some? ==> instance in db.rows) && i != instance
    ensures SameRow(db, WriteData(db, instance, snapshot, change), i)
  {
  }

  lemma RegisterElsewhere(db: Db, now: int, req: Request, i: string)
    requires i != req.instance && Register(db, now, req).Some?
    ensures SameRow(db, Register(db, now, req).value.db, i)
  {
    hide FetchRow, MergedMetadata;
  }

  lemma PolicyElsewhere(db: Db, clock: Clock, instance: string, snapshot: Option<Row>, group: string, v: Version,
      i: string)
    requires group in db.groups && (snapshot.Some? ==> instance in db.rows) && i != instance
    ensures SameRow(db, GrantOrRefuse(db, clock, instance, snapshot, group, v).db, i)
  {
    hide Refusal, WriteData;
    match Refusal(db, clock, group)
    case Some(why) =>
      var db' := if why == MaxTimedOutUpdatesLimitReached then Braked(db, group) else db;
      WriteElsewhere(db', instance, FetchRow(db', clock.now, instance), SetStatus(OnHold), i);
    case None =>
      WriteElsewhere(db, instance, snapshot, Grant(v, clock.now), i);
  }

  /** The policy of a group without limits refuses by nothing but disabled updates, and then writes nothing. */
  lemma PolicySparesGroup(db: Db, clock: Clock, instance: string, snapshot: Option<Row>, group: string, v: Version,
      g: string)
    requires group in db.groups && (snapshot.Some? ==> instance in db.rows)
    requires g in db.groups && NoLimits(db.groups[g])
    ensures var after := GrantOrRefuse(db, clock, instance, snapshot, group, v).db;
            g in after.groups && SameButRollout(db.groups[g], after.groups[g])
  {
    hide GrantedCount, InProgressCount, TimedOutCount, EffectiveMax;
  }

  /** A check of either kind by another instance. */
  lemma CheckElsewhere(db: Db, cfg: Config, clock: Clock, req: Request, after: Db, i: string)
    requires after == Check(db, cfg, clock, req).db || after == SyncerCheck(db, cfg, clock, req).db
    requires i != req.instance
    ensures SameRow(db, after, i)
    ensures forall g | g in db.groups && NoLimits(db.groups[g]) ::
              g in after.groups && SameButRollout(db.groups[g], after.groups[g])
  {
    if Register(db, clock.now, req).Some? {
      RegisterElsewhere(db, clock.now, req, i);
      var Registration(db1, snapshot) := Register(db, clock.now, req).value;
      var v := CheckHasEffect(db, cfg, clock, req);
      var v' := SyncerCheckHasEffect(db, cfg, clock, req);
      var granted := if after == Check(db, cfg, clock, req).db then v else v';
      hide Check, SyncerCheck, Register, GrantOrRefuse, WriteData;
      WriteElsewhere(db1, req.instance, snapshot, SetStatus(Complete), i);
      PolicyElsewhere(db1, clock, req.instance, snapshot, req.group, granted, i);
      forall g | g in db.groups && NoLimits(db.groups[g])
        ensures g in after.groups && SameButRollout(db.groups[g], after.groups[g])
      {
        PolicySparesGroup(db1, clock, req.instance, snapshot, req.group, granted, g);
        WriteKeepsGroups(db1, req.instance, snapshot, SetStatus(Complete));
      }
    }
  }

  lemma WriteKeepsGroups(db: Db, instance: string, snapshot: Option<Row>, change: Change)
    requires snapshot.Some? ==> instance in db.rows
    ensures WriteData(db, instance, snapshot, change).groups == db.groups
  {
  }

  /** An event of another instance; for group `g` it is not a failure that disables updates. */
  lemma EventElsewhere(db: Db, cfg: Config, now: int, e: Event, i: string, g: string)
    requires i != e.instance
    requires cfg.disableUpdatesOnFailedRollout && e.group == g ==> EventStatus(cfg, e.etype, e.result) != Some(Error)
    ensures var after := HandleEvent(db, cfg, now, e).db;
            && SameRow(db, after, i)
            && (g in db.groups ==> g in after.groups && SameButRollout(db.groups[g], after.groups[g]))
  {
    var s := EventHasEffect(db, cfg, now, e);
    WriteElsewhere(db, e.instance, FetchRow(db, now, e.instance), SetStatus(s), i);
    if e.group in db.groups {
      ConsequencesSpareGroup(db, cfg, now, e, g);
    }
    hide Consequences, WriteData, KnownEvent, EventStatus;
  }

  lemma ConsequencesSpareGroup(db: Db, cfg: Config, now: int, e: Event, g: string)
    requires e.group in db.groups
    requires cfg.disableUpdatesOnFailedRollout && e.group == g ==> EventStatus(cfg, e.etype, e.result) != Some(Error)
    ensures var after := Consequences(db, cfg, now, e);
            g in db.groups ==> g in after.groups && SameButRollout(db.groups[g], after.groups[g])
  {
    hide SucceededCount, TotalCount, AttemptedCount, EventStatus, FetchRow, Changed;
  }

  /** Something that others do: requests of other instances, and administration of other groups. */
  predicate Foreign(cfg: Config, action: Action, instance: string, group: string) {
    match action
    case RegularCheck(req, _) => req.instance != instance
    case MirrorCheck(req, _) => req.instance != instance
    case Ping(req) => req.instance != instance
    case Report(e) =>
      && e.instance != instance
      && (cfg.disableUpdatesOnFailedRollout && e.group == group ==>
            EventStatus(cfg, e.etype, e.result) != Some(Error))
    case OtherApplication(other, _) => other != instance
    case GroupUpdate(g, _) => g != group
    case ChannelChange(g, _) => g != group
    case OverrideClear(g) => g != group
  }

  predicate AllForeign(cfg: Config, steps: seq<Step>, instance: string, group: string) {
    forall s | s in steps :: Foreign(cfg, s.action, instance, group)
  }

  lemma ForeignStep(db: Db, node: Node, step: Step, instance: string, group: string)
    requires Foreign(node.cfg, step.action, instance, group)
    ensures var after := Apply(db, node, step);
            && SameRow(db, after, instance)
            && (group in db.groups && NoLimits(db.groups[group]) ==>
                  group in after.groups && SameButRollout(db.groups[group], after.groups[group]))
  {
    hide Check, SyncerCheck, Register, HandleEvent, EventStatus;
    match step.action
    case RegularCheck(req, officeHours) =>
      CheckElsewhere(db, node.cfg, Clock(step.now, officeHours), req, Apply(db, node, step), instance);
    case MirrorCheck(req, officeHours) =>
      CheckElsewhere(db, node.cfg, Clock(step.now, officeHours), req, Apply(db, node, step), instance);
    case Ping(req) =>
      if Register(db, step.now, req).Some? {
        RegisterElsewhere(db, step.now, req, instance);
      }
    case Report(e) => EventElsewhere(db, node.cfg, step.now, e, instance, group);
    case _ =>
  }

  /** Whatever others do, the instance's row stays, and its group keeps everything but the rollout flag. */
  lemma {:induction false} ForeignRun(db: Db, node: Node, steps: seq<Step>, instance: string, group: string)
    requires AllForeign(node.cfg, steps, instance, group)
    ensures var after := Exec(db, node, steps);
            && SameRow(db, after, instance)
            && (group in db.groups && NoLimits(db.groups[group]) ==>
                  group in after.groups && SameButRollout(db.groups[group], after.groups[group]))
    decreases |steps|
  {
    if steps != [] {
      var n := |steps| - 1;
      assert steps[n] in steps && forall s | s in steps[..n] :: s in steps;
      hide Apply, Foreign;
      ForeignRun(db, node, steps[..n], instance, group);
      ForeignStep(Exec(db, node, steps[..n]), node, steps[n], instance, group);
    }
  }
}
