/**
 How an instance's status history begins. The first entry is written by an update check of the instance
 itself, and the policy at that moment decides whether it is a grant or a hold without version. Two concrete
 runs show first checks that are not granted anything.
 */
module FirstChecks {
  import opened Versions
  import opened Wrappers
  import opened Runtime
  import opened RuntimeRuns
  import opened RolloutLimits
  import opened SmallFleet
  import Protocol

  // ----- what a check does to the rows -----

  /** Compared with `before`, only the history of `instance` may have grown. */
  ghost predicate OnlyGrows(before: Db, after: Db, instance: string) {
    && before.rows.Keys <= after.rows.Keys
    && (forall i | i in before.rows :: before.rows[i].history <= after.rows[i].history)
    && (forall i | i in before.rows && i != instance :: after.rows[i].history == before.rows[i].history)
    && (forall i | i in after.rows && i !in before.rows && i != instance :: after.rows[i].history == [])
  }

  lemma WriteGrows(db: Db, instance: string, snapshot: Option<Row>, change: Change)
    requires snapshot.Some? ==> instance in db.rows
    ensures OnlyGrows(db, WriteData(db, instance, snapshot, change), instance)
  {
  }

  lemma NothingGrows(db: Db, instance: string)
    ensures OnlyGrows(db, db, instance)
  {
  }

  lemma SameRowsGrow(before: Db, before': Db, after: Db, after': Db, instance: string)
    requires OnlyGrows(before, after, instance) && before'.rows == before.rows && after'.rows == after.rows
    ensures OnlyGrows(before', after', instance)
  {
  }

  lemma PolicyGrows(db: Db, clock: Clock, instance: string, snapshot: Option<Row>, group: string, v: Version)
    requires group in db.groups && (snapshot.Some? ==> instance in db.rows)
    ensures OnlyGrows(db, GrantOrRefuse(db, clock, instance, snapshot, group, v).db, instance)
  {
    hide Refusal, OnlyGrows, WriteData;
    var after := GrantOrRefuse(db, clock, instance, snapshot, group, v).db;
    NothingGrows(db, instance);
    match Refusal(db, clock, group)
    case Some(why) =>
      if why == UpdatesDisabled || snapshot.None? {
        SameRowsGrow(db, db, db, after, instance);
      } else {
        var db' := if why == MaxTimedOutUpdatesLimitReached then Braked(db, group) else db;
        WriteGrows(db', instance, FetchRow(db', clock.now, instance), SetStatus(OnHold));
        SameRowsGrow(db', db, after, after, instance);
      }
    case None =>
      if snapshot.Some? {
        WriteGrows(db, instance, snapshot, Grant(v, clock.now));
        SameRowsGrow(db, db, WriteData(db, instance, snapshot, Grant(v, clock.now)), after, instance);
      }
  }

  lemma EffectGrows(db1: Db, clock: Clock, req: Request, snapshot: Option<Row>, v: Version, db2: Db)
    requires req.group in db1.groups && (snapshot.Some? ==> req.instance in db1.rows)
    requires CheckEffect(db1, clock, req, snapshot, v, db2)
    ensures OnlyGrows(db1, db2, req.instance)
  {
    hide OnlyGrows, WriteData, GrantOrRefuse;
    NothingGrows(db1, req.instance);
    WriteGrows(db1, req.instance, snapshot, SetStatus(Complete));
    PolicyGrows(db1, clock, req.instance, snapshot, req.group, v);
  }

  lemma CheckGrows(db: Db, cfg: Config, clock: Clock, req: Request, after: Db)
    requires after == Check(db, cfg, clock, req).db || after == SyncerCheck(db, cfg, clock, req).db
    ensures OnlyGrows(db, after, req.instance)
  {
    if Register(db, clock.now, req).Some? {
      RegisterOnlyChecksIn(db, clock.now, req);
      var Registration(db1, snapshot) := Register(db, clock.now, req).value;
      var v := CheckHasEffect(db, cfg, clock, req);
      var v' := SyncerCheckHasEffect(db, cfg, clock, req);
      hide Check, SyncerCheck, Register, CheckEffect;
      EffectGrows(db1, clock, req, snapshot, if after == Check(db, cfg, clock, req).db then v else v', after);
    }
  }

  /** An event extends the history of a row only while an update is in progress, hence never begins one. */
  lemma EventGrows(db: Db, cfg: Config, now: int, e: Event)
    requires DbOk(db)
    ensures OnlyGrows(db, HandleEvent(db, cfg, now, e).db, e.instance)
    ensures e.instance in db.rows && db.rows[e.instance].history == [] ==> HandleEvent(db, cfg, now, e).db == db
    ensures HandleEvent(db, cfg, now, e).db.rows.Keys == db.rows.Keys
  {
    assert e.instance in db.rows ==> RowOk(db.rows[e.instance]);
    var s := EventHasEffect(db, cfg, now, e);
    WriteGrows(db, e.instance, FetchRow(db, now, e.instance), SetStatus(s));
    hide DbOk, Consequences, Changed, KnownEvent;
  }

  // ----- the first entry -----

  /** The update check that an action is, if it is one, and whether it is made in office hours. */
  function CheckOf(action: Action): Option<(Request, bool)> {
    match action
    case RegularCheck(req, officeHours) => Some((req, officeHours))
    case MirrorCheck(req, officeHours) => Some((req, officeHours))
    case _ => None
  }

  /** The rollout policy would let through an update for a check that is made now. */
  predicate Admits(db: Db, now: int, req: Request, officeHours: bool) {
    match Register(db, now, req)
    case Some(registration) => Refusal(registration.db, Clock(now, officeHours), req.group).None?
    case None => false
  }

  predicate NoHistory(db: Db, instance: string) {
    instance in db.rows ==> db.rows[instance].history == []
  }

  /** A check that begins an instance's history writes one entry, and the policy decides which. */
  lemma {:induction false} FirstEntryIff(db: Db, cfg: Config, clock: Clock, req: Request, after: Db)
    requires DbOk(db) && NoHistory(db, req.instance) && !NoHistory(after, req.instance)
    requires after == Check(db, cfg, clock, req).db || after == SyncerCheck(db, cfg, clock, req).db
    ensures var h := after.rows[req.instance].history;
            && |h| == 1
            && (h[0].status == UpdateGranted <==> Admits(db, clock.now, req, clock.officeHours))
            && (h[0].status != UpdateGranted ==> h[0] == HistoryEntry(OnHold, None))
  {
    RegisterKeepsDbOk(db, clock.now, req);
    RegisterOnlyChecksIn(db, clock.now, req);
    var Registration(db1, snapshot) := Register(db, clock.now, req).value;
    var v := CheckHasEffect(db, cfg, clock, req);
    var v' := SyncerCheckHasEffect(db, cfg, clock, req);
    if snapshot.Some? {
      assert RowOk(db1.rows[req.instance]);
      hide Check, SyncerCheck, Register, Refusal, HistoryOk, DbOk;
      FirstEntryOfEffect(db1, clock, req, snapshot, if after == Check(db, cfg, clock, req).db then v else v', after);
    } else {
      hide Check, SyncerCheck, Register, Refusal, HistoryOk;
    }
  }

  lemma {:induction false} FirstEntryOfEffect(db1: Db, clock: Clock, req: Request, snapshot: Option<Row>, v: Version,
      db2: Db)
    requires req.group in db1.groups && req.instance in db1.rows && RowOk(db1.rows[req.instance])
    requires db1.rows[req.instance].history == []
    requires snapshot.Some? && SameProgress(snapshot.value, db1.rows[req.instance])
    requires CheckEffect(db1, clock, req, snapshot, v, db2)
    requires req.instance in db2.rows && db2.rows[req.instance].history != []
    ensures db2.rows[req.instance].history
            == [if Refusal(db1, clock, req.group).None? then HistoryEntry(UpdateGranted, Some(v))
                else HistoryEntry(OnHold, None)]
  {
    hide Refusal, HistoryOk;
  }

  lemma StepGrows(db: Db, node: Node, step: Step, instance: string)
    requires DbOk(db)
    ensures var after := Apply(db, node, step);
            && db.rows.Keys <= after.rows.Keys
            && (instance in db.rows ==> db.rows[instance].history <= after.rows[instance].history)
            && (NoHistory(db, instance) && !NoHistory(after, instance) ==>
                CheckOf(step.action).Some? && CheckOf(step.action).value.0.instance == instance)
  {
    hide DbOk, Check, SyncerCheck, Register, HandleEvent;
    match step.action
    case RegularCheck(req, officeHours) =>
      CheckGrows(db, node.cfg, Clock(step.now, officeHours), req, Apply(db, node, step));
    case MirrorCheck(req, officeHours) =>
      CheckGrows(db, node.cfg, Clock(step.now, officeHours), req, Apply(db, node, step));
    case Ping(req) => RegisterOnlyChecksIn(db, step.now, req);
    case Report(e) => EventGrows(db, node.cfg, step.now, e);
    case _ =>
  }

  /**
   How every history begins: step `k` of the run is a check of the instance itself, which had no history
   before; the history starts with a grant if and only if the policy admitted an update at that moment, and
   otherwise with a hold without version.
   */
  lemma {:induction false} FirstEntryOfEveryRun(node: Node, groups: map<string, Group>, steps: seq<Step>,
      instance: string)
    returns (k: nat)
    requires !NoHistory(Exec(Fresh(groups), node, steps), instance)
    ensures k < |steps| && NoHistory(Exec(Fresh(groups), node, steps[..k]), instance)
    ensures CheckOf(steps[k].action).Some? && CheckOf(steps[k].action).value.0.instance == instance
    ensures var (req, officeHours) := CheckOf(steps[k].action).value;
            var first := Exec(Fresh(groups), node, steps).rows[instance].history[0];
            && (first.status == UpdateGranted <==>
                Admits(Exec(Fresh(groups), node, steps[..k]), steps[k].now, req, officeHours))
            && (first.status != UpdateGranted ==> first == HistoryEntry(OnHold, None))
    decreases |steps|
  {
    if steps == [] {
      assert false;
    } else {
      var n := |steps| - 1;
      var before := Exec(Fresh(groups), node, steps[..n]);
      RunsKeepDbOk(node, groups, steps[..n]);
      StepGrows(before, node, steps[n], instance);
      hide DbOk, Check, SyncerCheck, Register, HandleEvent, Admits;
      if NoHistory(before, instance) {
        k := n;
        var (req, officeHours) := CheckOf(steps[n].action).value;
        FirstEntryIff(before, node.cfg, Clock(steps[n].now, officeHours), req, Apply(before, node, steps[n]));
      } else {
        hide Apply;
        k := FirstEntryOfEveryRun(node, groups, steps[..n], instance);
        assert steps[..n][..k] == steps[..k] && steps[..n][k] == steps[k];
      }
    }
  }

  // ----- concrete runs -----

  const ONE_AT_A_TIME := Policy(true, false, false, SECOND, 1, SECOND)

  /** The second instance of a group that admits one update starts with a hold, before any grant. */
  lemma {:induction false} HoldComesFirst()
    ensures var steps := [Step(0, RegularCheck(Ask("a"), true)), Step(0, RegularCheck(Ask("b"), true))];
            var db := Exec(Fresh(Groups(ONE_AT_A_TIME, false)), NODE, steps);
            "b" in db.rows && db.rows["b"].history == [HistoryEntry(OnHold, None)]
  {
    var p := ONE_AT_A_TIME;
    var start := Fresh(Groups(p, false));
    var first, second := Step(0, RegularCheck(Ask("a"), true)), Step(0, RegularCheck(Ask("b"), true));
    var db1 := GrantedAtOnce(0, 0, start, p, "a");
    assert [first, second][..1] == [first] && [first][..0] == [];
    assert Exec(start, NODE, [first]) == db1 && Exec(start, NODE, [first, second]) == Apply(db1, NODE, second);
    SecondIsHeld(db1);
  }

  const NO_LIMIT := Policy(true, false, false, SECOND, MAX_PARALLEL_UPDATES, SECOND)

  /**
   An instance that checked in once and comes back a day later, unchanged, is forgotten: the server, which has
   no limits, grants it nothing. Asking once more at the same moment is enough to be served.
   */
  lemma {:induction false} SilentInstanceIsRefused()
    ensures var db := Exec(Fresh(Groups(NO_LIMIT, false)), NODE, [Step(0, Ping(Ask("a")))]);
            var first := Check(db, NODE.cfg, Clock(VALIDITY, true), Ask("a"));
            && "g" in db.groups && Protocol.Unlimited(db.groups["g"], CHANNEL, true)
            && Protocol.Forgotten(db, VALIDITY, Ask("a"))
            && first.result == Err(UpdateGrantFailed)
            && Check(first.db, NODE.cfg, Clock(VALIDITY, true), Ask("a")).result == Ok(TARGET)
  {
    var start := Fresh(Groups(NO_LIMIT, false));
    var steps := [Step(0, Ping(Ask("a")))];
    var db := Db(map["a" := META], map["a" := NewRow("g", OLD, 0)], Groups(NO_LIMIT, false));
    assert start.instances["a" := META] == db.instances && start.rows["a" := NewRow("g", OLD, 0)] == db.rows;
    assert steps[..0] == [] && Exec(start, NODE, steps) == Apply(start, NODE, steps[0]) == db;
    hide Exec;
    var back := db.(rows := db.rows["a" := NewRow("g", OLD, VALIDITY)]);
    assert Register(db, VALIDITY, Ask("a")) == Some(Registration(back, None));
    assert Check(db, NODE.cfg, Clock(VALIDITY, true), Ask("a")) == Outcome(back, Err(UpdateGrantFailed));
    assert Register(back, VALIDITY, Ask("a")) == Some(Registration(back, Some(NewRow("g", OLD, VALIDITY))));
    hide Register;
    CheckGrants(back, NODE.cfg, Clock(VALIDITY, true), Ask("a"), back, NewRow("g", OLD, VALIDITY), CHANNEL);
  }

  /** An instance known through another application is forgotten before it was ever seen here. */
  lemma {:induction false} KnownElsewhereIsRefused()
    ensures var db := Exec(Fresh(Groups(NO_LIMIT, false)), NODE, [Step(0, OtherApplication("a", META))]);
            var first := Check(db, NODE.cfg, Clock(0, true), Ask("a"));
            && "g" in db.groups && Protocol.Unlimited(db.groups["g"], CHANNEL, true)
            && Protocol.Forgotten(db, 0, Ask("a")) && "a" !in db.rows
            && first.result == Err(UpdateGrantFailed)
            && Check(first.db, NODE.cfg, Clock(0, true), Ask("a")).result == Ok(TARGET)
  {
    var start := Fresh(Groups(NO_LIMIT, false));
    var steps := [Step(0, OtherApplication("a", META))];
    var db := Db(map["a" := META], map[], Groups(NO_LIMIT, false));
    assert start.instances["a" := META] == db.instances;
    assert steps[..0] == [] && Exec(start, NODE, steps) == Apply(start, NODE, steps[0]) == db;
    hide Exec;
    var back := Db(map["a" := META], map["a" := NewRow("g", OLD, 0)], Groups(NO_LIMIT, false));
    assert db.rows["a" := NewRow("g", OLD, 0)] == back.rows;
    assert Register(db, 0, Ask("a")) == Some(Registration(back, None));
    assert Check(db, NODE.cfg, Clock(0, true), Ask("a")) == Outcome(back, Err(UpdateGrantFailed));
    assert Register(back, 0, Ask("a")) == Some(Registration(back, Some(NewRow("g", OLD, 0))));
    hide Register;
    CheckGrants(back, NODE.cfg, Clock(0, true), Ask("a"), back, NewRow("g", OLD, 0), CHANNEL);
  }

  lemma SecondIsHeld(db1: Db)
    requires db1.instances.Keys == db1.rows.Keys == {"a"} && db1.rows["a"] == GrantedRow(0, 0)
    requires db1.groups == Groups(ONE_AT_A_TIME, true)
    ensures var db := Check(db1, NODE.cfg, Clock(0, true), Ask("b")).db;
            "b" in db.rows && db.rows["b"].history == [HistoryEntry(OnHold, None)]
  {
    var db2 := Db(db1.instances["b" := META], db1.rows["b" := NewRow("g", OLD, 0)], db1.groups);
    assert Register(db1, 0, Ask("b")) == Some(Registration(db2, Some(NewRow("g", OLD, 0))));
    var granted := set i | i in db2.rows && Counted(i, db2.rows[i], "g", 0) && GrantedInPeriod(db2.rows[i], SECOND, 0);
    assert granted == {"a"};
    assert Refusal(db2, Clock(0, true), "g") == Some(MaxUpdatesPerPeriodLimitReached);
    hide Refusal, Register;
  }
}
