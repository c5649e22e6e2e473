/**
 What the rollout policy answers to an update check, told by the rows of the group: who is granted an update, why
 the others are refused, and what the answer leaves in the instance's row. Both kinds of check are covered.
 */
module Verdicts {
  import opened Versions
  import opened Wrappers
  import opened Floors
  import opened Runtime
  import opened RuntimeRuns
  import opened Rollout
  import opened Brake

  // ----- the policy, told by rows -----

  /** The group hands out updates now: they are switched on, and it is office hours if the policy asks for that. */
  predicate HandsOut(g: Group, officeHours: bool) {
    && (g.updatesOverride == Some(true) || (g.updatesOverride == None && g.policy.updatesEnabled))
    && (g.policy.officeHours ==> officeHours)
  }

  /** The real instances of a group that checked in within a day. */
  function Members(db: Db, group: string, now: int): set<string> {
    set i | i in db.rows && db.rows[i].group == group && now < db.rows[i].lastCheck + VALIDITY && !IsFake(i)
  }

  function GrantedLately(db: Db, group: string, period: int, now: int): set<string> {
    set i | i in Members(db, group, now) && db.rows[i].grantedAt.Some? && now < db.rows[i].grantedAt.value + period
  }

  function Updating(db: Db, group: string, timeout: int, now: int): set<string> {
    set i | i in Members(db, group, now) && db.rows[i].inProgress
            && db.rows[i].grantedAt.Some? && now <= db.rows[i].grantedAt.value + timeout
  }

  function Overdue(db: Db, group: string, timeout: int, now: int): set<string> {
    set i | i in Members(db, group, now) && db.rows[i].inProgress
            && db.rows[i].grantedAt.Some? && db.rows[i].grantedAt.value + timeout < now
  }

  /** Some attempt at the version of the group's channel has ended, well or badly. */
  predicate Tried(db: Db, group: string, now: int)
    requires group in db.groups
  {
    exists i | i in Members(db, group, now) ::
      !db.rows[i].inProgress && db.groups[group].HasPackage()
      && db.rows[i].lastUpdateVersion == Some(db.groups[group].channel.value.target.value.version)
  }

  predicate Limited(p: Policy) {
    p.safeMode || p.maxUpdates < MAX_PARALLEL_UPDATES
  }

  /** In safe mode one instance goes first. */
  function LimitNow(db: Db, group: string, now: int): int
    requires group in db.groups
  {
    var p := db.groups[group].policy;
    if p.safeMode && !Tried(db, group, now) then 1 else p.maxUpdates
  }

  /** `why` is what the policy of the group answers now; None is a grant. */
  ghost predicate Verdict(db: Db, clock: Clock, group: string, why: Option<UpdateError>)
    requires group in db.groups
  {
    var g, p, limit := db.groups[group], db.groups[group].policy, LimitNow(db, group, clock.now);
    var granted := |GrantedLately(db, group, p.periodInterval, clock.now)|;
    var updating := |Updating(db, group, p.updateTimeout, clock.now)|;
    var overdue := |Overdue(db, group, p.updateTimeout, clock.now)|;
    var open := HandsOut(g, clock.officeHours);
    && (why == Some(UpdatesDisabled) <==> !open)
    && (why == Some(MaxUpdatesPerPeriodLimitReached) <==> open && Limited(p) && granted >= limit)
    && (why == Some(MaxConcurrentUpdatesLimitReached) <==>
          open && Limited(p) && granted < limit && updating >= limit)
    && (why == Some(MaxTimedOutUpdatesLimitReached) <==>
          open && p.safeMode && granted < limit && updating < limit && overdue >= limit)
    && (why == None <==>
          open && (Limited(p) ==> granted < limit && updating < limit && (p.safeMode ==> overdue < limit)))
  }

  lemma {:induction false} RefusalIsVerdict(db: Db, clock: Clock, group: string)
    requires group in db.groups
    ensures Verdict(db, clock, group, Refusal(db, clock, group))
  {
    var g, now := db.groups[group], clock.now;
    CountsAreSets(db, group, g.policy.periodInterval, g.policy.updateTimeout, now);
    TriedIff(db, group, now);
    hide GrantedCount, InProgressCount, TimedOutCount, AttemptedCount, GrantedLately, Updating, Overdue, Tried;
  }

  lemma {:induction false} CountsAreSets(db: Db, group: string, period: int, timeout: int, now: int)
    ensures GrantedCount(db, group, period, now) == |GrantedLately(db, group, period, now)|
    ensures InProgressCount(db, group, timeout, now) == |Updating(db, group, timeout, now)|
    ensures TimedOutCount(db, group, timeout, now) == |Overdue(db, group, timeout, now)|
  {
    assert (set i | i in db.rows && Counted(i, db.rows[i], group, now) && GrantedInPeriod(db.rows[i], period, now))
        == GrantedLately(db, group, period, now);
    assert (set i | i in db.rows && Counted(i, db.rows[i], group, now) && RunningInTime(db.rows[i], timeout, now))
        == Updating(db, group, timeout, now);
    assert (set i | i in db.rows && Counted(i, db.rows[i], group, now) && TimedOut(db.rows[i], timeout, now))
        == Overdue(db, group, timeout, now);
  }

  lemma {:induction false} TriedIff(db: Db, group: string, now: int)
    requires group in db.groups
    ensures Tried(db, group, now) <==> AttemptedCount(db, group, db.groups[group].TargetVersion(), now) > 0
  {
    var target := db.groups[group].TargetVersion();
    var tried := set i | i in db.rows && Counted(i, db.rows[i], group, now) && Attempted(db.rows[i], target);
    assert AttemptedCount(db, group, target, now) == |tried|;
    if tried != {} {
      var i :| i in tried;
      assert i in Members(db, group, now);
    }
    if Tried(db, group, now) {
      var i :| i in Members(db, group, now) && !db.rows[i].inProgress && db.rows[i].lastUpdateVersion == target;
      assert i in tried;
    }
  }

  // ----- grants over a run -----

  /** The steps at which an instance asks a group that hands out updates. */
  function Chances(db: Db, node: Node, steps: seq<Step>, i: string): nat
    decreases |steps|
  {
    if steps == [] then 0
    else
      var n := |steps| - 1;
      Chances(db, node, steps[..n], i) + if HasChance(Exec(db, node, steps[..n]), steps[n].action, i) then 1 else 0
  }

  predicate HasChance(db: Db, action: Action, i: string) {
    exists g | g in db.groups :: AsksFor(action, g, i) && HandsOut(db.groups[g], InOfficeHours(action))
  }

  /** Over every run an instance gets at most one grant per check that it makes while its group hands out updates. */
  lemma {:induction false} GrantsNeedChances(db: Db, node: Node, steps: seq<Step>, i: string)
    ensures GrantsOf(db, i) <= GrantsOf(Exec(db, node, steps), i) <= GrantsOf(db, i) + Chances(db, node, steps, i)
    decreases |steps|
  {
    if steps != [] {
      var n := |steps| - 1;
      var before := Exec(db, node, steps[..n]);
      GrantsNeedChances(db, node, steps[..n], i);
      hide Apply, GrantsOf;
      if GrantsOf(Apply(before, node, steps[n]), i) != GrantsOf(before, i) {
        GrantNeedsUpdatesEnabled(before, node, steps[n], i);
      }
    }
  }

  // ----- the answer to a check -----

  function Why<T>(result: Result<T, UpdateError>): Option<UpdateError> {
    match result
    case Ok(_) => None
    case Err(why) => Some(why)
  }

  /** The instance is registered with this row, and its group's channel has an update for it. */
  predicate Asking(db: Db, clock: Clock, req: Request, db1: Db, row: Row, ch: Channel) {
    && Register(db, clock.now, req) == Some(Registration(db1, Some(row)))
    && req.group in db1.groups && db1.groups[req.group].channel == Some(ch) && ch.target.Some?
    && req.version.Some? && Less(req.version.value, ch.target.value.version)
  }

  /**
   The answer to a registered instance that is not updating and has something to be offered, by the rows of its
   group after the check-in; a syncer may hold a grant already.
   */
  lemma {:induction false} CheckVerdict(db: Db, cfg: Config, clock: Clock, req: Request, db1: Db, row: Row, ch: Channel)
    requires Asking(db, clock, req, db1, row, ch)
    ensures (row.status.Some? ==> !InProgressStatus(row.status.value))
            && ch.id !in PackagesForUpdate(ch, req.version.value, cfg.maxFloors)[0].blacklist
            ==> Verdict(db1, clock, req.group, Why(Check(db, cfg, clock, req).result))
    ensures (row.status.Some? ==> !BusyStatus(row.status.value))
            && !SomeBlacklisted(PackagesForUpdate(ch, req.version.value, cfg.maxFloors), ch.id)
            ==> Verdict(db1, clock, req.group, Why(SyncerCheck(db, cfg, clock, req).result))
  {
    RefusalIsVerdict(db1, clock, req.group);
    hide Register, PackagesForUpdate, SomeBlacklisted, Refusal, Verdict, WriteStatus;
  }

  /** What the answer leaves in the row: a grant for what is offered, a hold, or for disabled updates nothing. */
  ghost predicate Recorded(db1: Db, after: Db, clock: Clock, i: string, offered: Version, why: Option<UpdateError>)
    requires i in db1.rows
  {
    && i in after.rows && after.rows == db1.rows[i := after.rows[i]] && after.instances == db1.instances
    && var row, row' := db1.rows[i], after.rows[i];
       if why == Some(UpdatesDisabled) then row' == row
       else
         && row'.group == row.group && row'.version == row.version && row'.lastCheck == row.lastCheck
         && (if why.Some? then row'.grantedAt == row.grantedAt && row'.lastUpdateVersion == row.lastUpdateVersion
             else row'.grantedAt == Some(clock.now) && row'.lastUpdateVersion == Some(offered))
         && row'.status == Some(if why.Some? then OnHold else UpdateGranted) && row'.inProgress == why.None?
         && row'.history == (if row'.status == row.status then row.history
                             else row.history + [HistoryEntry(row'.status.value, row'.lastUpdateVersion)])
  }

  lemma {:induction false} PolicyRecords(db1: Db, clock: Clock, i: string, row: Row, group: string, v: Version)
    requires group in db1.groups && i in db1.rows && SameProgress(row, db1.rows[i])
    requires RowOk(db1.rows[i]) && (row.status.Some? ==> !InProgressStatus(row.status.value))
    requires db1.rows[i].lastCheck >= clock.now - RECENT
    ensures var out := GrantOrRefuse(db1, clock, i, Some(row), group, v);
            Recorded(db1, out.db, clock, i, v, Why(out.result))
  {
    hide HistoryOk, Refusal;
    match Refusal(db1, clock, group)
    case Some(why) =>
      var db' := if why == MaxTimedOutUpdatesLimitReached then Braked(db1, group) else db1;
      assert FetchRow(db', clock.now, i) == Some(db1.rows[i]);
    case None =>
  }

  /** What is known of an instance that has just been registered. */
  lemma {:induction false} JustRegistered(db: Db, clock: Clock, req: Request, db1: Db, row: Row)
    requires DbOk(db) && Register(db, clock.now, req) == Some(Registration(db1, Some(row)))
    ensures req.instance in db1.rows && SameProgress(row, db1.rows[req.instance]) && RowOk(db1.rows[req.instance])
    ensures db1.rows[req.instance].lastCheck >= clock.now - RECENT
  {
    RegisterKeepsDbOk(db, clock.now, req);
    RegisterCurrent(db, clock.now, req);
    hide Register, RowOk;
  }

  /** A regular check of an instance that is not updating: the version offered is the next one of the channel. */
  lemma {:induction false} AnswerIsRecorded(db: Db, cfg: Config, clock: Clock, req: Request, db1: Db, row: Row,
      ch: Channel)
    requires DbOk(db) && Asking(db, clock, req, db1, row, ch) && cfg.maxFloors >= 1
    requires row.status.Some? ==> !InProgressStatus(row.status.value)
    requires ch.id !in PackagesForUpdate(ch, req.version.value, cfg.maxFloors)[0].blacklist
    ensures req.instance in db1.rows
    ensures var out := Check(db, cfg, clock, req);
            && Recorded(db1, out.db, clock, req.instance, NextVersion(ch, req.version.value), Why(out.result))
            && (out.result.Ok? ==> out.result.value.version == NextVersion(ch, req.version.value))
  {
    JustRegistered(db, clock, req, db1, row);
    FirstPackageIgnoresCap(ch, req.version.value, cfg.maxFloors);
    PolicyRecords(db1, clock, req.instance, row, req.group, NextVersion(ch, req.version.value));
    hide Register, PackagesForUpdate, NextVersion, GrantOrRefuse, Recorded, DbOk, RowOk, SameProgress;
  }

  /** A syncer's check is granted the target. */
  lemma {:induction false} SyncerAnswerIsRecorded(db: Db, cfg: Config, clock: Clock, req: Request, db1: Db, row: Row,
      ch: Channel)
    requires DbOk(db) && Asking(db, clock, req, db1, row, ch) && WellFormed(ch)
    requires row.status.Some? ==> !InProgressStatus(row.status.value)
    requires !SomeBlacklisted(PackagesForUpdate(ch, req.version.value, cfg.maxFloors), ch.id)
    ensures req.instance in db1.rows
    ensures var out := SyncerCheck(db, cfg, clock, req);
            Recorded(db1, out.db, clock, req.instance, ch.target.value.version, Why(out.result))
  {
    JustRegistered(db, clock, req, db1, row);
    LastIsTarget(ch, req.version.value, cfg.maxFloors);
    hide Register, SyncerCheck, PackagesForUpdate, GrantOrRefuse, Recorded, DbOk, RowOk, SameProgress, WellFormed;
    PolicyRecords(db1, clock, req.instance, row, req.group, ch.target.value.version);
    SyncerAsksPolicy(db, cfg, clock, req, db1, row, ch);
  }

  lemma SyncerAsksPolicy(db: Db, cfg: Config, clock: Clock, req: Request, db1: Db, row: Row, ch: Channel)
    requires Asking(db, clock, req, db1, row, ch) && req.instance in db1.rows
    requires row.status.Some? ==> !InProgressStatus(row.status.value)
    requires !SomeBlacklisted(PackagesForUpdate(ch, req.version.value, cfg.maxFloors), ch.id)
    ensures var packages := PackagesForUpdate(ch, req.version.value, cfg.maxFloors);
            var policy := GrantOrRefuse(db1, clock, req.instance, Some(row), req.group,
                packages[|packages| - 1].version);
            var out := SyncerCheck(db, cfg, clock, req);
            out.db == policy.db && Why(out.result) == Why(policy.result)
  {
    hide Register, PackagesForUpdate, GrantOrRefuse, SomeBlacklisted;
  }

  // ----- the other answers -----

  predicate Busy(snapshot: Option<Row>) {
    snapshot.Some? && snapshot.value.status in {Some(Downloading), Some(Downloaded), Some(Installed)}
  }

  predicate HoldsGrant(snapshot: Option<Row>) {
    snapshot.Some? && snapshot.value.status == Some(UpdateGranted)
  }

  /** A registration fails exactly for a version that is none and for an unknown group, and then nothing changes. */
  lemma {:induction false} NotRegisteredIff(db: Db, cfg: Config, clock: Clock, req: Request)
    ensures Check(db, cfg, clock, req).result == Err(RegisterInstanceFailed) <==>
            req.version.None? || req.group !in db.groups
    ensures SyncerCheck(db, cfg, clock, req).result == Err(RegisterInstanceFailed) <==>
            req.version.None? || req.group !in db.groups
    ensures req.version.None? || req.group !in db.groups ==>
              Check(db, cfg, clock, req).db == db && SyncerCheck(db, cfg, clock, req).db == db
  {
    hide MergedMetadata, PackagesForUpdate, SomeBlacklisted, FetchRow, WriteData, EffectiveMax, GrantedCount,
      InProgressCount, TimedOutCount;
  }

  /** When a registered instance is told that there is no package, or no update for it. */
  lemma {:induction false} NothingToOfferIff(db: Db, cfg: Config, clock: Clock, req: Request, db1: Db,
      snapshot: Option<Row>)
    requires Register(db, clock.now, req) == Some(Registration(db1, snapshot))
    ensures var g, v := db1.groups[req.group], req.version.value;
            var out := Check(db, cfg, clock, req);
            && (out.result == Err(NoPackageFound) <==> !Busy(snapshot) && !g.HasPackage())
            && (out.result == Err(NoUpdatePackageAvailable) <==>
                  && !Busy(snapshot) && g.HasPackage()
                  && var ch := g.channel.value;
                     if HoldsGrant(snapshot) then
                       || ch.id in ch.target.value.blacklist
                       || snapshot.value.lastUpdateVersion.None? || !Less(v, snapshot.value.lastUpdateVersion.value)
                     else
                       || !Less(v, ch.target.value.version)
                       || ch.id in PackagesForUpdate(ch, v, cfg.maxFloors)[0].blacklist)
            && (out.result in {Err(NoPackageFound), Err(UpdateInProgressOnInstance)} ==> out.db == db1)
    ensures var g, v := db1.groups[req.group], req.version.value;
            var out := SyncerCheck(db, cfg, clock, req);
            && (out.result == Err(NoPackageFound) <==> !Busy(snapshot) && !g.HasPackage())
            && (out.result == Err(NoUpdatePackageAvailable) <==>
                  && !Busy(snapshot) && g.HasPackage()
                  && (!Less(v, g.channel.value.target.value.version)
                      || SomeBlacklisted(PackagesForUpdate(g.channel.value, v, cfg.maxFloors), g.channel.value.id)))
            && (out.result in {Err(NoPackageFound), Err(UpdateInProgressOnInstance), Err(NoUpdatePackageAvailable)} ==>
                  out.db == db1)
  {
    hide Register, PackagesForUpdate, SomeBlacklisted, WriteStatus, EffectiveMax, GrantedCount, InProgressCount,
      TimedOutCount, WriteData;
  }

  /**
   A regular check of an instance that holds a grant either serves it and changes nothing more, or ends its
   update: it is complete, at the version of the grant.
   */
  lemma {:induction false} GrantIsServedOrEnds(db: Db, cfg: Config, clock: Clock, req: Request, db1: Db, row: Row)
    requires DbOk(db) && Register(db, clock.now, req) == Some(Registration(db1, Some(row)))
    requires row.status == Some(UpdateGranted) && db1.groups[req.group].HasPackage()
    ensures req.instance in db1.rows && row.lastUpdateVersion.Some?
    ensures var out, before := Check(db, cfg, clock, req), db1.rows[req.instance];
            if out.result.Ok? then out.db == db1
            else
              && out.result == Err(NoUpdatePackageAvailable)
              && out.db == db1.(rows := db1.rows[req.instance := out.db.rows[req.instance]])
              && out.db.rows[req.instance] == before.(status := Some(Complete), version := row.lastUpdateVersion.value,
                 inProgress := false, history := before.history + [HistoryEntry(Complete, row.lastUpdateVersion)])
  {
    JustRegistered(db, clock, req, db1, row);
    hide Register, PackagesForUpdate, HistoryOk;
  }

  // ----- what only an administrator changes -----

  /** The policy that a step gives to a group, if it gives one. */
  function GivenPolicy(action: Action, group: string): Option<Policy> {
    match action
    case GroupUpdate(g, policy) => if g == group then Some(policy) else None
    case _ => None
  }

  function GivenChannel(action: Action, group: string): Option<Option<Channel>> {
    match action
    case ChannelChange(g, channel) => if g == group then Some(channel) else None
    case _ => None
  }

  lemma GrantKeepsSettings(db: Db, clock: Clock, i: string, snapshot: Option<Row>, target: string, v: Version,
      group: string)
    requires target in db.groups && (snapshot.Some? ==> i in db.rows) && group in db.groups
    ensures var after := GrantOrRefuse(db, clock, i, snapshot, target, v).db;
            && group in after.groups && after.groups[group].policy == db.groups[group].policy
            && after.groups[group].channel == db.groups[group].channel
  {
    hide Refusal, Changed, FetchRow;
  }

  lemma CheckKeepsSettings(db: Db, cfg: Config, clock: Clock, req: Request, after: Db, group: string)
    requires after == Check(db, cfg, clock, req).db || after == SyncerCheck(db, cfg, clock, req).db
    requires group in db.groups
    ensures group in after.groups && after.groups[group].policy == db.groups[group].policy
    ensures after.groups[group].channel == db.groups[group].channel
  {
    if Register(db, clock.now, req).Some? {
      var Registration(db1, snapshot) := Register(db, clock.now, req).value;
      var v := CheckHasEffect(db, cfg, clock, req);
      var v' := SyncerCheckHasEffect(db, cfg, clock, req);
      var granted := if after == Check(db, cfg, clock, req).db then v else v';
      hide Check, SyncerCheck, Register, GrantOrRefuse;
      GrantKeepsSettings(db1, clock, req.instance, snapshot, req.group, granted, group);
    } else {
      hide Register;
    }
  }

  /** A group has the policy and the channel that an administrator gave it last. */
  lemma {:induction false} SettingsAfter(db: Db, node: Node, step: Step, group: string)
    requires group in db.groups
    ensures var after := Apply(db, node, step);
            && group in after.groups
            && (var policy := GivenPolicy(step.action, group);
                after.groups[group].policy == if policy.Some? then policy.value else db.groups[group].policy)
            && var channel := GivenChannel(step.action, group);
               after.groups[group].channel == if channel.Some? then channel.value else db.groups[group].channel
  {
    hide Check, SyncerCheck, HandleEvent, Register;
    var action := step.action;
    if action.RegularCheck? || action.MirrorCheck? {
      CheckKeepsSettings(db, node.cfg, Clock(step.now, action.officeHours), action.req, Apply(db, node, step), group);
    } else if action.Report? {
      var s := EventHasEffect(db, node.cfg, step.now, action.event);
    }
  }
}
