/**
 Which version an instance that holds a grant is served: the next version of the channel as it is now. That is
 the granted version as long as channel and instance stay as they were at the grant, and need not be otherwise.
 */
module ServedVersions {
  import opened Versions
  import opened Wrappers
  import opened Floors
  import opened Runtime
  import opened RuntimeRuns
  import opened Bystanders
  import opened SmallFleet
  import opened RolloutLimits

  /**
   An instance that holds a grant is served the granted version if and only if the target may be served to the
   channel, the granted version is ahead of the client, and it is the next version of the channel as it is now.
   */
  lemma {:induction false} ServedIsGrantedIff(db: Db, cfg: Config, clock: Clock, req: Request, row: Row)
    requires cfg.maxFloors >= 1 && Register(db, clock.now, req).Some?
    requires Register(db, clock.now, req).value.snapshot == Some(row) && row.status == Some(UpdateGranted)
    ensures var group, result := db.groups[req.group], Check(db, cfg, clock, req).result;
            result.Ok? && row.lastUpdateVersion == Some(result.value.version) <==>
            && group.HasPackage() && group.channel.value.id !in group.channel.value.target.value.blacklist
            && row.lastUpdateVersion == Some(NextVersion(group.channel.value, req.version.value))
            && Less(req.version.value, row.lastUpdateVersion.value)
  {
    var group := db.groups[req.group];
    hide Register, PackagesForUpdate, GrantOrRefuse, NextVersion, WriteData;
    if group.HasPackage() {
      FirstPackageIgnoresCap(group.channel.value, req.version.value, cfg.maxFloors);
    }
  }

  /** Whatever is served to a regular client is the next version of its channel. */
  lemma ServedIsNext(db: Db, cfg: Config, clock: Clock, req: Request)
    requires cfg.maxFloors >= 1 && Check(db, cfg, clock, req).result.Ok?
    ensures Register(db, clock.now, req).Some? && db.groups[req.group].HasPackage()
    ensures Check(db, cfg, clock, req).result.value.version
            == NextVersion(db.groups[req.group].channel.value, req.version.value)
  {
    var group := db.groups[req.group];
    hide Register, PackagesForUpdate, GrantOrRefuse, NextVersion;
    if group.HasPackage() {
      FirstPackageIgnoresCap(group.channel.value, req.version.value, cfg.maxFloors);
    }
  }

  // ----- from the grant on -----

  /** A grant that the instance holds is for this version. */
  predicate HoldsGrantFor(db: Db, i: string, v: Version) {
    i in db.rows && db.rows[i].status == Some(UpdateGranted) ==> db.rows[i].lastUpdateVersion == Some(v)
  }

  /** The group has this channel, and a grant the instance holds is for the next version of a client at `v`. */
  ghost predicate GrantIsNext(db: Db, i: string, g: string, v: Version, ch: Channel)
    requires ch.target.Some?
  {
    g in db.groups && db.groups[g].channel == Some(ch) && HoldsGrantFor(db, i, NextVersion(ch, v))
  }

  /** Channel and instance stay: the instance asks as a regular client with this version and group. */
  predicate Steady(action: Action, i: string, g: string, v: Version, ch: Channel) {
    match action
    case RegularCheck(req, _) => req.instance == i ==> req.version == Some(v) && req.group == g
    case MirrorCheck(req, _) => req.instance != i
    case ChannelChange(group, channel) => group == g ==> channel == Some(ch)
    case _ => true
  }

  lemma ChannelStays(db: Db, node: Node, step: Step, i: string, g: string, v: Version, ch: Channel)
    requires g in db.groups && db.groups[g].channel == Some(ch) && Steady(step.action, i, g, v, ch)
    ensures var after := Apply(db, node, step); g in after.groups && after.groups[g].channel == Some(ch)
  {
    match step.action
    case RegularCheck(req, officeHours) =>
      ChecksKeepChannels(db, node.cfg, Clock(step.now, officeHours), req, g);
    case MirrorCheck(req, officeHours) =>
      ChecksKeepChannels(db, node.cfg, Clock(step.now, officeHours), req, g);
    case Report(e) => var s := EventHasEffect(db, node.cfg, step.now, e);
    case _ =>
  }

  lemma ChecksKeepChannels(db: Db, cfg: Config, clock: Clock, req: Request, g: string)
    requires g in db.groups
    ensures g in Check(db, cfg, clock, req).db.groups && g in SyncerCheck(db, cfg, clock, req).db.groups
    ensures Check(db, cfg, clock, req).db.groups[g].channel == db.groups[g].channel
    ensures SyncerCheck(db, cfg, clock, req).db.groups[g].channel == db.groups[g].channel
  {
    if Register(db, clock.now, req).Some? {
      var Registration(db1, snapshot) := Register(db, clock.now, req).value;
      var v := CheckHasEffect(db, cfg, clock, req);
      var v' := SyncerCheckHasEffect(db, cfg, clock, req);
      hide Check, SyncerCheck, Register, GrantOrRefuse, WriteData;
      WriteKeepsGroups(db1, req.instance, snapshot, SetStatus(Complete));
      PolicyKeepsChannels(db1, clock, req.instance, snapshot, req.group, v, g);
      PolicyKeepsChannels(db1, clock, req.instance, snapshot, req.group, v', g);
    }
  }

  lemma PolicyKeepsChannels(db: Db, clock: Clock, instance: string, snapshot: Option<Row>, group: string, v: Version,
      g: string)
    requires group in db.groups && (snapshot.Some? ==> instance in db.rows) && g in db.groups
    ensures var after := GrantOrRefuse(db, clock, instance, snapshot, group, v).db;
            g in after.groups && after.groups[g].channel == db.groups[g].channel
  {
    hide Refusal, Changed, FetchRow;
  }

  /** A regular check by the instance: a new grant is for the next version. */
  lemma OwnCheck(db: Db, cfg: Config, clock: Clock, req: Request, i: string, g: string, v: Version, ch: Channel)
    requires cfg.maxFloors >= 1 && ch.target.Some? && GrantIsNext(db, i, g, v, ch)
    requires req.instance == i && req.version == Some(v) && req.group == g
    ensures HoldsGrantFor(Check(db, cfg, clock, req).db, i, NextVersion(ch, v))
  {
    if Register(db, clock.now, req).Some? {
      RegisterOnlyChecksIn(db, clock.now, req);
      FirstPackageIgnoresCap(ch, v, cfg.maxFloors);
      var Registration(db1, snapshot) := Register(db, clock.now, req).value;
      assert HoldsGrantFor(db1, i, NextVersion(ch, v));
      hide Register, PackagesForUpdate, NextVersion, GrantOrRefuse, WriteData, OnlyCheckedIn, HoldsGrantFor;
      if snapshot.None? || snapshot.value.status != Some(UpdateGranted) {
        OwnGrant(db1, clock, i, snapshot, g, NextVersion(ch, v));
      }
      OwnWrite(db1, i, snapshot, SetStatus(Complete), NextVersion(ch, v));
    }
  }

  /** The policy check of an instance that does not hold a grant by its snapshot. */
  lemma OwnGrant(db: Db, clock: Clock, i: string, snapshot: Option<Row>, g: string, next: Version)
    requires g in db.groups && (snapshot.Some? ==> i in db.rows && snapshot.value.status != Some(UpdateGranted))
    requires HoldsGrantFor(db, i, next)
    ensures HoldsGrantFor(GrantOrRefuse(db, clock, i, snapshot, g, next).db, i, next)
  {
    hide Refusal;
  }

  lemma OwnWrite(db: Db, i: string, snapshot: Option<Row>, change: Change, next: Version)
    requires change.NewStatus() != UpdateGranted && (snapshot.Some? ==> i in db.rows) && HoldsGrantFor(db, i, next)
    ensures HoldsGrantFor(WriteData(db, i, snapshot, change), i, next)
  {
  }

  lemma StepKeepsGrant(db: Db, node: Node, step: Step, i: string, g: string, v: Version, ch: Channel)
    requires node.cfg.maxFloors >= 1 && ch.target.Some? && GrantIsNext(db, i, g, v, ch)
    requires Steady(step.action, i, g, v, ch)
    ensures GrantIsNext(Apply(db, node, step), i, g, v, ch)
  {
    ChannelStays(db, node, step, i, g, v, ch);
    hide NextVersion, Check, SyncerCheck, Register, HandleEvent;
    match step.action
    case RegularCheck(req, officeHours) =>
      var clock := Clock(step.now, officeHours);
      if req.instance == i {
        OwnCheck(db, node.cfg, clock, req, i, g, v, ch);
      } else {
        CheckElsewhere(db, node.cfg, clock, req, Apply(db, node, step), i);
      }
    case MirrorCheck(req, officeHours) =>
      CheckElsewhere(db, node.cfg, Clock(step.now, officeHours), req, Apply(db, node, step), i);
    case Ping(req) => RegisterOnlyChecksIn(db, step.now, req);
    case Report(e) => EventKeepsGrant(db, node.cfg, step.now, e, i, NextVersion(ch, v));
    case _ =>
  }

  /** No event grants an update. */
  lemma EventKeepsGrant(db: Db, cfg: Config, now: int, e: Event, i: string, next: Version)
    requires HoldsGrantFor(db, i, next)
    ensures HoldsGrantFor(HandleEvent(db, cfg, now, e).db, i, next)
  {
    hide Refusal, SucceededCount, TotalCount, AttemptedCount, KnownEvent;
  }

  /**
   Over every run in which channel and instance stay as they are, a grant that the instance holds is for the
   version it is served. The run may start right after a grant, or before the instance was ever seen.
   */
  lemma {:induction false} ServedIsGranted(db: Db, node: Node, steps: seq<Step>, clock: Clock, req: Request,
      ch: Channel)
    requires node.cfg.maxFloors >= 1 && ch.target.Some? && req.version.Some?
    requires GrantIsNext(db, req.instance, req.group, req.version.value, ch)
    requires forall s | s in steps :: Steady(s.action, req.instance, req.group, req.version.value, ch)
    ensures var end := Exec(db, node, steps);
            var r, result := Register(end, clock.now, req), Check(end, node.cfg, clock, req).result;
            r.Some? && r.value.snapshot.Some? && r.value.snapshot.value.status == Some(UpdateGranted) && result.Ok? ==>
              r.value.snapshot.value.lastUpdateVersion == Some(result.value.version)
  {
    GrantStays(db, node, steps, req.instance, req.group, req.version.value, ch);
    var end := Exec(db, node, steps);
    hide Exec, Check, NextVersion, Steady;
    RegisterOnlyChecksIn(end, clock.now, req);
    if Check(end, node.cfg, clock, req).result.Ok? {
      ServedIsNext(end, node.cfg, clock, req);
    }
  }

  lemma {:induction false} GrantStays(db: Db, node: Node, steps: seq<Step>, i: string, g: string, v: Version,
      ch: Channel)
    requires node.cfg.maxFloors >= 1 && ch.target.Some? && GrantIsNext(db, i, g, v, ch)
    requires forall s | s in steps :: Steady(s.action, i, g, v, ch)
    ensures GrantIsNext(Exec(db, node, steps), i, g, v, ch)
    decreases |steps|
  {
    if steps != [] {
      var n := |steps| - 1;
      assert steps[n] in steps && forall s | s in steps[..n] :: s in steps;
      hide Apply, Steady, GrantIsNext;
      GrantStays(db, node, steps[..n], i, g, v, ch);
      StepKeepsGrant(Exec(db, node, steps[..n]), node, steps[n], i, g, v, ch);
    }
  }

  /** Right after a regular check that was granted, the grant is for the next version. */
  lemma {:induction false} AfterGrant(db: Db, cfg: Config, clock: Clock, req: Request)
    requires cfg.maxFloors >= 1 && Check(db, cfg, clock, req).result.Ok?
    requires req.instance in db.rows ==> db.rows[req.instance].status != Some(UpdateGranted)
    ensures Register(db, clock.now, req).Some? && db.groups[req.group].HasPackage()
    ensures var ch := db.groups[req.group].channel.value;
            GrantIsNext(Check(db, cfg, clock, req).db, req.instance, req.group, req.version.value, ch)
  {
    ServedIsNext(db, cfg, clock, req);
    var ch := db.groups[req.group].channel.value;
    assert GrantIsNext(db, req.instance, req.group, req.version.value, ch);
    OwnCheck(db, cfg, clock, req, req.instance, req.group, req.version.value, ch);
    ChecksKeepChannels(db, cfg, clock, req, req.group);
    hide Check, NextVersion;
  }

  // ----- a channel that moves -----

  const NEWER := Version(3, 0)
  const MOVED := CHANNEL.(target := Some(TARGET.(id := "q", version := NEWER)))
  const FEW := Policy(true, false, false, SECOND, 1, SECOND)

  /**
   An instance is granted one version and, after the channel moved, served another. When it then reports
   completion, the server records the version that it never installed.
   */
  lemma {:induction false} MovedChannelServesAnother()
    ensures var steps := [Step(0, RegularCheck(Ask("a"), true)), Step(0, ChannelChange("g", Some(MOVED)))];
            var db := Exec(Fresh(Groups(FEW, false)), NODE, steps);
            var served := Check(db, NODE.cfg, Clock(0, true), Ask("a"));
            var done := HandleEvent(served.db, NODE.cfg, 0, Event("a", "g", EVENT_UPDATE_COMPLETE, RESULT_SUCCESS, ""));
            && served.result.Ok? && served.result.value.version == NEWER
            && "a" in served.db.rows && served.db.rows["a"].lastUpdateVersion == Some(NEW)
            && done.error == None && "a" in done.db.rows && done.db.rows["a"].version == NEW
  {
    var start := Fresh(Groups(FEW, false));
    var first, second := Step(0, RegularCheck(Ask("a"), true)), Step(0, ChannelChange("g", Some(MOVED)));
    var db1 := GrantedAtOnce(0, 0, start, FEW, "a");
    TwoSteps(start, NODE, first, second);
    var db := Exec(start, NODE, [first, second]);
    hide Exec, Check, HandleEvent, Link;
    assert db.rows["a"] == GrantedRow(0, 0) && db.instances["a"] == META;
    MovedCheck(db);
    MovedCompletion(db);
  }

  lemma TwoSteps(db: Db, node: Node, first: Step, second: Step)
    ensures Exec(db, node, [first, second]) == Apply(Apply(db, node, first), node, second)
  {
    hide Apply;
    assert [first, second][..1] == [first] && [first][..0] == [];
    assert Exec(db, node, [first]) == Apply(Exec(db, node, []), node, first);
  }

  lemma MovedCheck(db: Db)
    requires "a" in db.rows && db.rows["a"] == GrantedRow(0, 0) && "a" in db.instances && db.instances["a"] == META
    requires "g" in db.groups && db.groups["g"].channel == Some(MOVED)
    ensures Check(db, NODE.cfg, Clock(0, true), Ask("a")) == Outcome(db, Ok(MOVED.target.value))
  {
    assert Register(db, 0, Ask("a")) == Some(Registration(db, Some(GrantedRow(0, 0))));
    hide Register;
  }

  lemma MovedCompletion(db: Db)
    requires "a" in db.rows && db.rows["a"] == GrantedRow(0, 0) && "a" in db.instances && "g" in db.groups
    ensures var e := Event("a", "g", EVENT_UPDATE_COMPLETE, RESULT_SUCCESS, "");
            var done := HandleEvent(db, NODE.cfg, 0, e);
            done.error == None && "a" in done.db.rows && done.db.rows["a"].version == NEW
  {
    hide SucceededCount, TotalCount, AttemptedCount;
  }
}
