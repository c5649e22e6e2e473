/**
 The rollout bound needs short intervals: for every other enforced policy there is a run, with fixed
 membership and limits, after which the group has more updates under way than its limit.

 In the run, a pilot is updated and the period of its grant passes, so that safe mode admits as many
 updates as the limit. Then as many instances as the limit allows check in, get their grants just before
 their check-ins would be recorded again, and fall silent. A day after their recorded check-in they are
 no longer counted, so one more instance is granted; then the silent ones come back.
 */
module RolloutLimits {
  import opened Wrappers
  import opened Runtime
  import opened RuntimeRuns
  import opened Rollout
  import opened SmallFleet

  const PILOT := "p"

  ghost predicate Distinct(names: seq<string>) {
    && (forall i | 0 <= i < |names| :: !IsFake(names[i]) && names[i] != PILOT)
    && (forall i, j | 0 <= i < j < |names| :: names[i] != names[j])
  }

  lemma MakeNames(n: nat) returns (names: seq<string>)
    ensures |names| == n && Distinct(names)
  {
    names := [];
    var last := "";
    while |names| < n
      invariant |names| <= n && |last| == |names|
      invariant forall i | 0 <= i < |names| :: |names[i]| == i + 1 && names[i][0] == 'a'
      decreases n - |names|
    {
      last := ['a'] + last;
      names := names + [last];
    }
  }

  function Prefix(names: seq<string>, n: nat): set<string>
    requires n <= |names|
  {
    set i | 0 <= i < n :: names[i]
  }

  lemma PrefixGrows(names: seq<string>, n: nat, i: nat)
    requires n <= |names| && i <= n && i < |names|
    ensures Prefix(names, if i == n then n + 1 else n) == Prefix(names, n) + {names[i]}
  {
  }

  lemma {:induction false} PrefixSize(names: seq<string>, n: nat)
    requires Distinct(names) && n <= |names|
    ensures |Prefix(names, n)| == n
  {
    hide Prefix, Distinct;
    if n == 0 {
      assert forall s :: s !in Prefix(names, 0) by {
        NoPrefix(names);
      }
    } else {
      PrefixSize(names, n - 1);
      NewName(names, n - 1);
      PrefixGrows(names, n - 1, n - 1);
    }
  }

  lemma NoPrefix(names: seq<string>)
    ensures Prefix(names, 0) == {}
  {
  }

  lemma NewName(names: seq<string>, n: nat)
    requires Distinct(names) && n < |names|
    ensures names[n] !in Prefix(names, n)
  {
    hide IsFake;
  }

  /** When the crowd checks in: the period of the pilot's grant is over, and so is the time of unrecorded check-ins. */
  function Base(p: Policy): int {
    (if p.periodInterval > 0 then p.periodInterval else 0) + RECENT + 1
  }

  function GrantedRow(lastCheck: int, at: int): Row {
    Changed(NewRow("g", OLD, lastCheck), Grant(NEW, at))
  }

  function PilotRow(lastCheck: int): Row {
    Changed(GrantedRow(0, 0), SetStatus(Complete)).(lastCheck := lastCheck)
  }

  /**
   The row of the i-th instance: the first `granted` hold a grant, the first `back` of them came back,
   number `limit` is late.
   */
  function RowFor(i: nat, base: int, limit: nat, granted: nat, back: nat): Row {
    if i == limit then GrantedRow(base + VALIDITY, base + VALIDITY)
    else if i < granted then GrantedRow(if i < back then base + VALIDITY else base, base + RECENT)
    else NewRow("g", OLD, base)
  }

  /** Besides the pilot, the i-th instance on record is `names[i]`, for the first `n`, and its row is `rowAt(i)`. */
  ghost predicate Table(db: Db, pilot: Row, names: seq<string>, n: nat, rowAt: nat -> Row) {
    && n <= |names|
    && db.rows.Keys == db.instances.Keys == Prefix(names, n) + {PILOT}
    && db.rows[PILOT] == pilot && db.instances[PILOT] == META
    && forall i | 0 <= i < n :: names[i] in db.rows && db.rows[names[i]] == rowAt(i) && db.instances[names[i]] == META
  }

  lemma InPrefix(names: seq<string>, n: nat, i: nat)
    requires i < n <= |names|
    ensures names[i] in Prefix(names, n)
  {
  }

  lemma WriteTable(db: Db, pilot: Row, names: seq<string>, n: nat, rowAt: nat -> Row, i: nat, db': Db,
      rowAt': nat -> Row)
    requires Table(db, pilot, names, n, rowAt) && Distinct(names) && i <= n && i < |names|
    requires forall k: nat | k < n && k != i :: rowAt'(k) == rowAt(k)
    requires db'.rows == db.rows[names[i] := rowAt'(i)] && db'.instances == db.instances[names[i] := META]
    ensures Table(db', pilot, names, if i == n then n + 1 else n, rowAt')
  {
    hide IsFake;
    var n' := if i == n then n + 1 else n;
    PrefixGrows(names, n, i);
    hide Prefix;
    forall k: nat | k < n'
      ensures names[k] in db'.rows && db'.rows[names[k]] == rowAt'(k) && db'.instances[names[k]] == META
    {
      InPrefix(names, n', k);
      assert k == i || names[k] != names[i];
    }
    assert (Prefix(names, n) + {PILOT}) + {names[i]} == Prefix(names, n') + {PILOT};
  }

  /** The tables when the first `n` instances of the crowd are on record. */
  ghost predicate Stage(db: Db, p: Policy, names: seq<string>, n: nat, granted: nat, back: nat) {
    && p.maxUpdates >= 0 && Distinct(names)
    && db.groups == Groups(p, granted > 0)
    && Table(db, PilotRow(Base(p)), names, n, (i: nat) => RowFor(i, Base(p), p.maxUpdates, granted, back))
  }

  datatype Moment = Moment(now: int, db: Db)

  /** One settled step of the run. */
  ghost predicate Link(p: Policy, before: Moment, step: Step, after: Moment) {
    && before.now <= step.now == after.now
    && Settled(before.db, step.action, "g", p) && Apply(before.db, NODE, step) == after.db
  }

  /** A run so far with every moment on the way, the last of which is `end`. */
  ghost predicate Reached(p: Policy, steps: seq<Step>, trail: seq<Moment>, end: Moment) {
    && |trail| == |steps| + 1 && trail[0] == Moment(0, Fresh(Groups(p, false))) && trail[|steps|] == end
    && forall k {:trigger steps[k]} | 0 <= k < |steps| :: Link(p, trail[k], steps[k], trail[k + 1])
  }

  lemma Extend(p: Policy, steps: seq<Step>, trail: seq<Moment>, end: Moment, step: Step, next: Moment)
    requires Reached(p, steps, trail, end) && Link(p, end, step, next)
    ensures Reached(p, steps + [step], trail + [next], next)
  {
    hide Link;
  }

  /** Such a run is a settled run of the service. */
  lemma {:induction false} ReachedIsRun(p: Policy, steps: seq<Step>, trail: seq<Moment>, end: Moment)
    requires Reached(p, steps, trail, end)
    ensures SettledRun(Fresh(Groups(p, false)), NODE, steps, "g", p)
    ensures Exec(Fresh(Groups(p, false)), NODE, steps) == end.db
    ensures steps != [] ==> steps[|steps| - 1].now == end.now
    ensures 0 <= end.now && (steps != [] ==> 0 <= steps[0].now)
    decreases |steps|
  {
    hide Apply, Settled;
    if steps != [] {
      var n := |steps| - 1;
      ReachedIsRun(p, steps[..n], trail[..n + 1], trail[n]);
      assert Link(p, trail[n], steps[n], trail[n + 1]);
    }
  }

  /** A run after a first step. */
  lemma {:induction false} ExecAfter(db: Db, node: Node, first: Step, steps: seq<Step>)
    ensures Exec(db, node, [first] + steps) == Exec(Apply(db, node, first), node, steps)
    decreases |steps|
  {
    hide Apply;
    var all := [first] + steps;
    if steps == [] {
      assert all == [first] && all[..0] == [];
    } else {
      var n := |steps| - 1;
      ExecAfter(db, node, first, steps[..n]);
      assert all[..|all| - 1] == [first] + steps[..n] && all[|all| - 1] == steps[n];
    }
  }

  /** Settled steps put before a settled run, under policies with the same limits. */
  lemma {:induction false} SettledAfter(db: Db, node: Node, first: Step, steps: seq<Step>, group: string, p: Policy,
      p': Policy)
    requires SameLimits(p, p') && Settled(db, first.action, group, p)
    requires SettledRun(Apply(db, node, first), node, steps, group, p') && (steps != [] ==> first.now <= steps[0].now)
    ensures SettledRun(db, node, [first] + steps, group, p)
    decreases |steps|
  {
    var all := [first] + steps;
    if steps == [] {
      assert all == [first] && all[..0] == [];
    } else {
      var n := |steps| - 1;
      hide Apply;
      SettledAfter(db, node, first, steps[..n], group, p, p');
      ExecAfter(db, node, first, steps[..n]);
      assert all[..|all| - 1] == [first] + steps[..n] && all[|all| - 1] == steps[n];
      assert n > 0 ==> all[|all| - 2] == steps[n - 1];
    }
  }

  /** Writing the i-th row leads from one stage to the next. */
  lemma NextStage(db: Db, p: Policy, names: seq<string>, n: nat, granted: nat, back: nat, i: nat,
                  db': Db, granted': nat, back': nat)
    requires Stage(db, p, names, n, granted, back) && i <= n && i < |names|
    requires forall k | 0 <= k < n && k != i ::
               RowFor(k, Base(p), p.maxUpdates, granted', back') == RowFor(k, Base(p), p.maxUpdates, granted, back)
    requires db'.rows == db.rows[names[i] := RowFor(i, Base(p), p.maxUpdates, granted', back')]
    requires db'.instances == db.instances[names[i] := META] && db'.groups == Groups(p, granted' > 0)
    ensures Stage(db', p, names, if i == n then n + 1 else n, granted', back')
  {
    hide Distinct, RowFor, PilotRow, Prefix;
    WriteTable(db, PilotRow(Base(p)), names, n, (k: nat) => RowFor(k, Base(p), p.maxUpdates, granted, back), i, db',
               (k: nat) => RowFor(k, Base(p), p.maxUpdates, granted', back'));
  }

  // ----- the pilot -----

  /** A first contact in a group in which nobody else is counted. */
  lemma FirstInGroup(db: Db, now: int, req: Request, p: Policy) returns (db1: Db)
    requires p.maxUpdates >= 1 && Enforced(p) && p.updatesEnabled
    requires req.version.Some? && req.group == "g" && (exists rollout :: db.groups == Groups(p, rollout))
    requires req.instance !in db.instances && req.instance !in db.rows
    requires forall i | i in db.rows :: db.rows[i].lastCheck <= now - VALIDITY
    ensures db1 == Db(db.instances[req.instance := req.metadata],
            db.rows[req.instance := NewRow("g", req.version.value, now)], db.groups)
    ensures Register(db, now, req) == Some(Registration(db1, Some(NewRow("g", req.version.value, now))))
    ensures Refusal(db1, Clock(now, true), "g").None?
  {
    db1 := Db(db.instances[req.instance := req.metadata], db.rows[req.instance := NewRow("g", req.version.value, now)],
        db.groups);
    assert Register(db, now, req) == Some(Registration(db1, Some(NewRow("g", req.version.value, now))));
    NobodyCounts(db1, now, p, req.instance);
    hide GrantedCount, InProgressCount, TimedOutCount, AttemptedCount, Register;
  }

  lemma NobodyCounts(db: Db, now: int, p: Policy, newcomer: string)
    requires forall i | i in db.rows && i != newcomer :: db.rows[i].lastCheck <= now - VALIDITY
    requires newcomer in db.rows && !db.rows[newcomer].inProgress && db.rows[newcomer].grantedAt.None?
    ensures GrantedCount(db, "g", p.periodInterval, now) == 0
    ensures InProgressCount(db, "g", p.updateTimeout, now) == 0
    ensures TimedOutCount(db, "g", p.updateTimeout, now) == 0
  {
    var busy := set i | i in db.rows && Counted(i, db.rows[i], "g", now)
        && GrantedInPeriod(db.rows[i], p.periodInterval, now);
    var running := set i | i in db.rows && Counted(i, db.rows[i], "g", now)
        && RunningInTime(db.rows[i], p.updateTimeout, now);
    var late := set i | i in db.rows && Counted(i, db.rows[i], "g", now) && TimedOut(db.rows[i], p.updateTimeout, now);
    assert busy == {} && running == {} && late == {};
  }

  /** A first contact that is granted an update at once. */
  lemma GrantedAtOnce(now: int, before: int, db: Db, p: Policy, name: string) returns (db': Db)
    requires p.maxUpdates >= 1 && Enforced(p) && p.updatesEnabled && before <= now
    requires exists rollout :: db.groups == Groups(p, rollout)
    requires name !in db.instances && name !in db.rows
    requires forall i | i in db.rows :: db.rows[i].lastCheck <= now - VALIDITY
    ensures db' == Db(db.instances[name := META], db.rows[name := GrantedRow(now, now)], Groups(p, true))
    ensures Link(p, Moment(before, db), Step(now, RegularCheck(Ask(name), true)), Moment(now, db'))
  {
    var db1 := FirstInGroup(db, now, Ask(name), p);
    hide Register, Refusal, Enforced;
    CheckGrants(db, NODE.cfg, Clock(now, true), Ask(name), db1, NewRow("g", OLD, now), CHANNEL);
    hide Check;
    db' := Db(db.instances[name := META], db.rows[name := GrantedRow(now, now)], Groups(p, true));
    GrantWrites(now, db, db1, p, name);
  }

  lemma GrantWrites(now: int, db: Db, db1: Db, p: Policy, name: string)
    requires exists rollout :: db.groups == Groups(p, rollout)
    requires db1 == Db(db.instances[name := META], db.rows[name := NewRow("g", OLD, now)], db.groups)
    ensures WithRollout(db1.(rows := db1.rows[name := Changed(NewRow("g", OLD, now), Grant(NEW, now))]), "g", true)
            == Db(db.instances[name := META], db.rows[name := GrantedRow(now, now)], Groups(p, true))
  {
    assert db.rows[name := NewRow("g", OLD, now)][name := GrantedRow(now, now)]
        == db.rows[name := GrantedRow(now, now)];
    hide GrantedRow, NewRow;
  }

  const COMPLETED := Event(PILOT, "g", EVENT_UPDATE_COMPLETE, RESULT_SUCCESS, "")

  lemma PilotCompletes(db: Db, p: Policy) returns (db': Db)
    requires db == Db(map[PILOT := META], map[PILOT := GrantedRow(0, 0)], Groups(p, true))
    ensures db' == Db(map[PILOT := META], map[PILOT := PilotRow(0)], Groups(p, false))
    ensures Link(p, Moment(0, db), Step(0, Report(COMPLETED)), Moment(0, db'))
  {
    db' := Db(map[PILOT := META], map[PILOT := PilotRow(0)], Groups(p, false));
    var db1 := WriteStatus(db, 0, PILOT, Complete);
    assert db1.rows == db'.rows;
    var succeeded := set i | i in db1.rows && Counted(i, db1.rows[i], "g", 0) && Attempted(db1.rows[i], Some(NEW))
                             && Some(db1.rows[i].version) == Some(NEW);
    var all := set i | i in db1.rows && Counted(i, db1.rows[i], "g", 0);
    assert succeeded == {PILOT} && all == {PILOT};
    assert WithRollout(db1, "g", false).groups == Groups(p, false);
    hide AttemptedCount;
  }

  lemma PilotReturns(db: Db, p: Policy, names: seq<string>) returns (db': Db)
    requires db == Db(map[PILOT := META], map[PILOT := PilotRow(0)], Groups(p, false)) && Distinct(names)
             && p.maxUpdates >= 0
    ensures Link(p, Moment(0, db), Step(Base(p), Ping(Request(PILOT, META, Some(NEW), "g"))), Moment(Base(p), db'))
    ensures Stage(db', p, names, 0, 0, 0)
  {
    hide Distinct, IsFake;
    db' := Db(map[PILOT := META], map[PILOT := PilotRow(Base(p))], Groups(p, false));
    assert db.rows[PILOT := PilotRow(Base(p))] == db'.rows;
    assert Prefix(names, 0) == {};
  }

  lemma PilotPhase(p: Policy, names: seq<string>) returns (steps: seq<Step>, trail: seq<Moment>, db: Db)
    requires p.maxUpdates >= 1 && Enforced(p) && p.updatesEnabled && Distinct(names)
    ensures Reached(p, steps, trail, Moment(Base(p), db)) && Stage(db, p, names, 0, 0, 0)
  {
    var start := Fresh(Groups(p, false));
    steps, trail := [], [Moment(0, start)];
    assert Reached(p, steps, trail, Moment(0, start));
    hide Link, Reached, Stage, Distinct;
    var db1 := GrantedAtOnce(0, 0, start, p, PILOT);
    var step := Step(0, RegularCheck(Ask(PILOT), true));
    Extend(p, steps, trail, Moment(0, start), step, Moment(0, db1));
    steps, trail := steps + [step], trail + [Moment(0, db1)];
    assert start.instances[PILOT := META] == map[PILOT := META]
        && start.rows[PILOT := GrantedRow(0, 0)] == map[PILOT := GrantedRow(0, 0)];
    var db2 := PilotCompletes(db1, p);
    Extend(p, steps, trail, Moment(0, db1), Step(0, Report(COMPLETED)), Moment(0, db2));
    steps, trail := steps + [Step(0, Report(COMPLETED))], trail + [Moment(0, db2)];
    db := PilotReturns(db2, p, names);
    step := Step(Base(p), Ping(Request(PILOT, META, Some(NEW), "g")));
    Extend(p, steps, trail, Moment(0, db2), step, Moment(Base(p), db));
    steps, trail := steps + [step], trail + [Moment(Base(p), db)];
  }

  // ----- the crowd -----

  lemma FirstContact(db: Db, p: Policy, names: seq<string>, n: nat) returns (db': Db)
    requires Stage(db, p, names, n, 0, 0) && n < p.maxUpdates && n < |names|
    ensures Link(p, Moment(Base(p), db), Step(Base(p), Ping(Ask(names[n]))), Moment(Base(p), db'))
    ensures Stage(db', p, names, n + 1, 0, 0)
  {
    hide IsFake, PilotRow;
    assert names[n] !in db.rows && names[n] !in db.instances;
    db' := CheckedIn(db.(instances := db.instances[names[n] := META]), Base(p), Ask(names[n]), OLD);
    assert Register(db, Base(p), Ask(names[n])).value.db == db';
    hide Register, Stage;
    NextStage(db, p, names, n, 0, 0, n, db', 0, 0);
  }

  lemma OnRecord(db: Db, p: Policy, names: seq<string>, n: nat, granted: nat, back: nat, i: nat)
    requires Stage(db, p, names, n, granted, back) && i < n
    ensures i < |names| && names[i] in db.rows && names[i] in db.instances && db.instances[names[i]] == META
    ensures db.rows[names[i]] == RowFor(i, Base(p), p.maxUpdates, granted, back)
    ensures db.groups == Groups(p, granted > 0)
  {
    InPrefix(names, n, i);
    hide Prefix, Distinct;
  }

  /** Whose row counts while the crowd gets its grants: the granted ones, and the pilot as an ended attempt. */
  lemma CrowdCounts(db: Db, p: Policy, names: seq<string>, granted: nat)
    requires p.maxUpdates >= 0 && Stage(db, p, names, p.maxUpdates, granted, 0) && granted < p.maxUpdates
    ensures forall s | s in db.rows && s !in Prefix(names, granted) ::
              && !GrantedInPeriod(db.rows[s], p.periodInterval, Base(p) + RECENT) && !db.rows[s].inProgress
    ensures granted <= |names| && PILOT in db.rows && Counted(PILOT, db.rows[PILOT], "g", Base(p) + RECENT)
    ensures Attempted(db.rows[PILOT], Some(NEW))
  {
    forall s | s in db.rows && s !in Prefix(names, granted)
      ensures !GrantedInPeriod(db.rows[s], p.periodInterval, Base(p) + RECENT) && !db.rows[s].inProgress
    {
      if s != PILOT {
        var i :| 0 <= i < p.maxUpdates && names[i] == s;
        assert db.rows[names[i]] == RowFor(i, Base(p), p.maxUpdates, granted, 0);
      }
    }
  }

  lemma CrowdBelowLimit(db: Db, p: Policy, names: seq<string>, granted: nat)
    requires p.maxUpdates >= 0 && Stage(db, p, names, p.maxUpdates, granted, 0) && granted < p.maxUpdates
    ensures GrantedCount(db, "g", p.periodInterval, Base(p) + RECENT) <= granted
    ensures InProgressCount(db, "g", p.updateTimeout, Base(p) + RECENT) <= granted
    ensures TimedOutCount(db, "g", p.updateTimeout, Base(p) + RECENT) <= granted
    ensures AttemptedCount(db, "g", Some(NEW), Base(p) + RECENT) > 0
  {
    var now := Base(p) + RECENT;
    PrefixSize(names, granted);
    CrowdCounts(db, p, names, granted);
    hide Stage, Prefix, IsFake, GrantedInPeriod, Base, Counted, Attempted;
    var busy := set i | i in db.rows && Counted(i, db.rows[i], "g", now)
        && GrantedInPeriod(db.rows[i], p.periodInterval, now);
    var running := set i | i in db.rows && Counted(i, db.rows[i], "g", now)
        && RunningInTime(db.rows[i], p.updateTimeout, now);
    var late := set i | i in db.rows && Counted(i, db.rows[i], "g", now) && TimedOut(db.rows[i], p.updateTimeout, now);
    var ended := set i | i in db.rows && Counted(i, db.rows[i], "g", now) && Attempted(db.rows[i], Some(NEW));
    SubsetSize(busy, Prefix(names, granted));
    SubsetSize(running, Prefix(names, granted));
    SubsetSize(late, Prefix(names, granted));
    assert PILOT in ended;
    SubsetSize({PILOT}, ended);
  }

  /** With an ended attempt on record, the policy lets a further update through below the limit, in safe mode too. */
  lemma BelowLimit(db: Db, p: Policy, names: seq<string>, granted: nat)
    requires Enforced(p) && p.updatesEnabled
    requires Stage(db, p, names, p.maxUpdates, granted, 0) && granted < p.maxUpdates
    ensures Refusal(db, Clock(Base(p) + RECENT, true), "g").None?
  {
    CrowdBelowLimit(db, p, names, granted);
    assert db.groups == Groups(p, granted > 0);
    hide Stage, Base;
    LetThrough(db, Clock(Base(p) + RECENT, true), p);
  }

  lemma LetThrough(db: Db, clock: Clock, p: Policy)
    requires Enforced(p) && p.updatesEnabled && clock.officeHours
    requires exists rollout :: db.groups == Groups(p, rollout)
    requires GrantedCount(db, "g", p.periodInterval, clock.now) < p.maxUpdates
    requires InProgressCount(db, "g", p.updateTimeout, clock.now) < p.maxUpdates
    requires TimedOutCount(db, "g", p.updateTimeout, clock.now) < p.maxUpdates
    requires AttemptedCount(db, "g", Some(NEW), clock.now) > 0
    ensures Refusal(db, clock, "g").None?
  {
    hide GrantedCount, InProgressCount, TimedOutCount, AttemptedCount;
  }

  /** A check of an instance on record that the policy lets through. */
  lemma GrantLink(now: int, at: int, db: Db, p: Policy, name: string, rollout: bool) returns (db': Db)
    requires now <= at && db.groups == Groups(p, rollout)
    requires name in db.instances && name in db.rows && db.instances[name] == META
    requires db.rows[name] == NewRow("g", OLD, at - RECENT) && Refusal(db, Clock(at, true), "g").None?
    ensures Link(p, Moment(now, db), Step(at, RegularCheck(Ask(name), true)), Moment(at, db'))
    ensures db' == Db(db.instances, db.rows[name := GrantedRow(at - RECENT, at)], Groups(p, true))
  {
    hide Refusal;
    assert Register(db, at, Ask(name)) == Some(Registration(db, Some(db.rows[name])));
    hide Register;
    CheckGrants(db, NODE.cfg, Clock(at, true), Ask(name), db, db.rows[name], CHANNEL);
    db' := Check(db, NODE.cfg, Clock(at, true), Ask(name)).db;
    hide Check;
    assert db'.groups == Groups(p, true);
  }

  lemma NextGrant(now: int, db: Db, p: Policy, names: seq<string>, granted: nat) returns (db': Db)
    requires Enforced(p) && p.updatesEnabled && now <= Base(p) + RECENT
    requires Stage(db, p, names, p.maxUpdates, granted, 0) && granted < p.maxUpdates
    ensures granted < |names|
    ensures Link(p, Moment(now, db), Step(Base(p) + RECENT, RegularCheck(Ask(names[granted]), true)),
                 Moment(Base(p) + RECENT, db'))
    ensures Stage(db', p, names, p.maxUpdates, granted + 1, 0)
  {
    OnRecord(db, p, names, p.maxUpdates, granted, 0, granted);
    BelowLimit(db, p, names, granted);
    hide Stage, Refusal, Base, Link;
    db' := GrantLink(now, Base(p) + RECENT, db, p, names[granted], granted > 0);
    NextStage(db, p, names, p.maxUpdates, granted, 0, granted, db', granted + 1, 0);
  }

  /** A day after its recorded check-in everybody is silent. */
  lemma EverybodySilent(db: Db, p: Policy, names: seq<string>)
    requires p.maxUpdates >= 1 && Stage(db, p, names, p.maxUpdates, p.maxUpdates, 0) && p.maxUpdates < |names|
    ensures forall s | s in db.rows :: db.rows[s].lastCheck == Base(p)
    ensures names[p.maxUpdates] !in db.rows && names[p.maxUpdates] !in db.instances
    ensures db.groups == Groups(p, true)
  {
    hide IsFake, Base;
    forall s | s in db.rows
      ensures db.rows[s].lastCheck == Base(p)
    {
      if s != PILOT {
        var i :| 0 <= i < p.maxUpdates && names[i] == s;
        assert db.rows[names[i]] == RowFor(i, Base(p), p.maxUpdates, p.maxUpdates, 0);
      }
    }
  }

  lemma LateGrant(now: int, db: Db, p: Policy, names: seq<string>) returns (db': Db)
    requires p.maxUpdates >= 1 && Enforced(p) && p.updatesEnabled && now <= Base(p) + VALIDITY
    requires Stage(db, p, names, p.maxUpdates, p.maxUpdates, 0) && p.maxUpdates < |names|
    ensures Link(p, Moment(now, db), Step(Base(p) + VALIDITY, RegularCheck(Ask(names[p.maxUpdates]), true)),
            Moment(Base(p) + VALIDITY, db'))
    ensures Stage(db', p, names, p.maxUpdates + 1, p.maxUpdates, 0)
  {
    EverybodySilent(db, p, names);
    hide Stage, Link;
    db' := GrantedAtOnce(Base(p) + VALIDITY, now, db, p, names[p.maxUpdates]);
    NextStage(db, p, names, p.maxUpdates, p.maxUpdates, 0, p.maxUpdates, db', p.maxUpdates, 0);
  }

  lemma SilentReturns(db: Db, now: int, req: Request)
    requires req.version.Some? && req.group in db.groups && req.instance in db.instances && req.instance in db.rows
    requires db.instances[req.instance] == req.metadata == META && db.rows[req.instance].lastCheck <= now - VALIDITY
    ensures Register(db, now, req) == Some(Registration(CheckedIn(db, now, req, req.version.value), None))
  {
  }

  lemma ComeBackLink(now: int, at: int, granted: int, db: Db, p: Policy, name: string, db': Db)
    requires now <= at && db.groups == Groups(p, true)
    requires name in db.instances && name in db.rows && db.instances[name] == META
    requires db.rows[name] == GrantedRow(at - VALIDITY, granted)
    requires db' == db.(rows := db.rows[name := GrantedRow(at, granted)])
    ensures Link(p, Moment(now, db), Step(at, Ping(Ask(name))), Moment(at, db'))
  {
    SilentReturns(db, at, Ask(name));
    hide Register;
  }

  lemma {:induction false} ComeBack(now: int, db: Db, p: Policy, names: seq<string>, back: nat) returns (db': Db)
    requires back < p.maxUpdates && now <= Base(p) + VALIDITY
             && Stage(db, p, names, p.maxUpdates + 1, p.maxUpdates, back)
    ensures back < |names|
    ensures Link(p, Moment(now, db), Step(Base(p) + VALIDITY, Ping(Ask(names[back]))), Moment(Base(p) + VALIDITY, db'))
    ensures Stage(db', p, names, p.maxUpdates + 1, p.maxUpdates, back + 1)
  {
    hide Link, GrantedRow, Table, Groups, Base;
    OnRecord(db, p, names, p.maxUpdates + 1, p.maxUpdates, back, back);
    db' := db.(rows := db.rows[names[back] := GrantedRow(Base(p) + VALIDITY, Base(p) + RECENT)]);
    ComeBackLink(now, Base(p) + VALIDITY, Base(p) + RECENT, db, p, names[back], db');
    NextStage(db, p, names, p.maxUpdates + 1, p.maxUpdates, back, back, db', p.maxUpdates, back + 1);
  }

  predicate AllUnderWay(s: string, row: Row, base: int) {
    && Counted(s, row, "g", base + VALIDITY) && row.inProgress
    && (row.grantedAt == Some(base + RECENT) || row.grantedAt == Some(base + VALIDITY))
  }

  lemma StageNames(db: Db, p: Policy, names: seq<string>, n: nat, granted: nat, back: nat)
    requires Stage(db, p, names, n, granted, back)
    ensures Distinct(names) && n <= |names|
  {
  }

  lemma EveryoneCounts(db: Db, p: Policy, names: seq<string>)
    requires p.maxUpdates >= 1 && Stage(db, p, names, p.maxUpdates + 1, p.maxUpdates, p.maxUpdates)
    ensures p.maxUpdates < |names| && |Prefix(names, p.maxUpdates + 1)| == p.maxUpdates + 1
    ensures forall s | s in Prefix(names, p.maxUpdates + 1) :: s in db.rows && AllUnderWay(s, db.rows[s], Base(p))
  {
    hide Stage, AllUnderWay, Base, Prefix, Distinct;
    StageNames(db, p, names, p.maxUpdates + 1, p.maxUpdates, p.maxUpdates);
    PrefixSize(names, p.maxUpdates + 1);
    forall s | s in Prefix(names, p.maxUpdates + 1)
      ensures s in db.rows && AllUnderWay(s, db.rows[s], Base(p))
    {
      var i := IndexOf(names, p.maxUpdates + 1, s);
      IsUnderWay(db, p, names, i);
    }
  }

  lemma IndexOf(names: seq<string>, n: nat, s: string) returns (i: nat)
    requires n <= |names| && s in Prefix(names, n)
    ensures i < n && names[i] == s
  {
    i :| 0 <= i < n && names[i] == s;
  }

  lemma IsUnderWay(db: Db, p: Policy, names: seq<string>, i: nat)
    requires p.maxUpdates >= 1 && Stage(db, p, names, p.maxUpdates + 1, p.maxUpdates, p.maxUpdates)
    requires i < p.maxUpdates + 1
    ensures i < |names| && names[i] in db.rows && AllUnderWay(names[i], db.rows[names[i]], Base(p))
  {
    OnRecord(db, p, names, p.maxUpdates + 1, p.maxUpdates, p.maxUpdates, i);
    assert !IsFake(names[i]);
    hide Base, IsFake, Stage;
  }

  lemma TooMany(db: Db, p: Policy, crowd: set<string>)
    requires |crowd| > p.maxUpdates >= 1 && forall s | s in crowd :: s in db.rows && AllUnderWay(s, db.rows[s], Base(p))
    requires !IntervalsShort(p.periodInterval, p.updateTimeout)
    ensures !LimitRespected(db, "g", p, Base(p) + VALIDITY)
  {
    var now := Base(p) + VALIDITY;
    hide Base, IsFake;
    if p.periodInterval + RECENT > VALIDITY {
      var busy := set i | i in db.rows && Counted(i, db.rows[i], "g", now)
          && GrantedInPeriod(db.rows[i], p.periodInterval, now);
      SubsetSize(crowd, busy);
    } else {
      var running := set i | i in db.rows && Counted(i, db.rows[i], "g", now)
          && RunningInTime(db.rows[i], p.updateTimeout, now);
      SubsetSize(crowd, running);
    }
  }

  // ----- the run -----

  lemma AllCheckIn(p: Policy, names: seq<string>) returns (steps: seq<Step>, trail: seq<Moment>, db: Db)
    requires 1 <= p.maxUpdates <= |names| && Distinct(names) && Enforced(p) && p.updatesEnabled
    ensures Reached(p, steps, trail, Moment(Base(p), db)) && Stage(db, p, names, p.maxUpdates, 0, 0)
  {
    hide Reached, Stage, Link, Distinct, Base;
    steps, trail, db := PilotPhase(p, names);
    for k := 0 to p.maxUpdates
      invariant Reached(p, steps, trail, Moment(Base(p), db)) && Stage(db, p, names, k, 0, 0)
    {
      var step := Step(Base(p), Ping(Ask(names[k])));
      var db' := FirstContact(db, p, names, k);
      Extend(p, steps, trail, Moment(Base(p), db), step, Moment(Base(p), db'));
      steps, trail, db := steps + [step], trail + [Moment(Base(p), db')], db';
    }
  }

  lemma AllGranted(p: Policy, names: seq<string>) returns (steps: seq<Step>, trail: seq<Moment>, db: Db)
    requires 1 <= p.maxUpdates <= |names| && Distinct(names) && Enforced(p) && p.updatesEnabled
    ensures Reached(p, steps, trail, Moment(Base(p) + RECENT, db)) && Stage(db, p, names, p.maxUpdates, p.maxUpdates, 0)
  {
    hide Reached, Stage, Link, Distinct, Base;
    steps, trail, db := AllCheckIn(p, names);
    var now := Base(p);
    for k := 0 to p.maxUpdates
      invariant now == (if k == 0 then Base(p) else Base(p) + RECENT)
      invariant Reached(p, steps, trail, Moment(now, db)) && Stage(db, p, names, p.maxUpdates, k, 0)
    {
      var step := Step(Base(p) + RECENT, RegularCheck(Ask(names[k]), true));
      var db' := NextGrant(now, db, p, names, k);
      Extend(p, steps, trail, Moment(now, db), step, Moment(Base(p) + RECENT, db'));
      steps, trail, db, now := steps + [step], trail + [Moment(Base(p) + RECENT, db')], db', Base(p) + RECENT;
    }
  }

  lemma OneMore(p: Policy, names: seq<string>) returns (steps: seq<Step>, trail: seq<Moment>, db: Db)
    requires 1 <= p.maxUpdates < |names| && Distinct(names) && Enforced(p) && p.updatesEnabled
    ensures Reached(p, steps, trail, Moment(Base(p) + VALIDITY, db))
            && Stage(db, p, names, p.maxUpdates + 1, p.maxUpdates, 0)
  {
    hide Reached, Stage, Link, Distinct, Base;
    var db0;
    steps, trail, db0 := AllGranted(p, names);
    var step := Step(Base(p) + VALIDITY, RegularCheck(Ask(names[p.maxUpdates]), true));
    db := LateGrant(Base(p) + RECENT, db0, p, names);
    Extend(p, steps, trail, Moment(Base(p) + RECENT, db0), step, Moment(Base(p) + VALIDITY, db));
    steps, trail := steps + [step], trail + [Moment(Base(p) + VALIDITY, db)];
  }

  /** The whole run, up to the `k`-th of the silent instances coming back. */
  lemma {:induction false} Overrun(p: Policy, names: seq<string>, k: nat)
    returns (steps: seq<Step>, trail: seq<Moment>, db: Db)
    requires k <= p.maxUpdates && 1 <= p.maxUpdates < |names| && Distinct(names) && Enforced(p) && p.updatesEnabled
    ensures Reached(p, steps, trail, Moment(Base(p) + VALIDITY, db))
            && Stage(db, p, names, p.maxUpdates + 1, p.maxUpdates, k)
  {
    hide Reached, Stage, Link, Distinct, Base;
    if k == 0 {
      steps, trail, db := OneMore(p, names);
    } else {
      var at := Base(p) + VALIDITY;
      steps, trail, db := Overrun(p, names, k - 1);
      var step := Step(at, Ping(Ask(names[k - 1])));
      var db' := ComeBack(at, db, p, names, k - 1);
      Extend(p, steps, trail, Moment(at, db), step, Moment(at, db'));
      steps, trail, db := steps + [step], trail + [Moment(at, db')], db';
    }
  }

  /** Every run with fixed membership and limits under policy `p` respects the limit at its end and later. */
  ghost predicate AlwaysRespected(p: Policy) {
    forall node: Node, groups: map<string, Group>, steps: seq<Step>, group: string, now: int ::
      group in groups && groups[group].policy == p && SettledRun(Fresh(groups), node, steps, group, p)
      && (steps != [] ==> steps[|steps| - 1].now <= now)
      ==> LimitRespected(Exec(Fresh(groups), node, steps), group, p, now)
  }

  /**
   The rollout bound holds over all runs exactly for policies with short intervals, whatever the limit, with or
   without safe mode, and whether or not updates are enabled at first.
   */
  lemma BoundHoldsIffIntervalsShort(p: Policy)
    requires p.maxUpdates >= 1 && Enforced(p)
    ensures AlwaysRespected(p) <==> IntervalsShort(p.periodInterval, p.updateTimeout)
  {
    if IntervalsShort(p.periodInterval, p.updateTimeout) {
      forall node: Node, groups: map<string, Group>, steps: seq<Step>, group: string, now: int |
        group in groups && groups[group].policy == p && SettledRun(Fresh(groups), node, steps, group, p)
        && (steps != [] ==> steps[|steps| - 1].now <= now)
        ensures LimitRespected(Exec(Fresh(groups), node, steps), group, p, now)
      {
        RolloutBound(node, groups, steps, group, now);
      }
    } else {
      var steps, now := BoundFails(p);
      hide SettledRun, LimitRespected, Exec, IntervalsShort;
    }
  }

  /** The run in which the limit is exceeded, when updates are enabled. */
  lemma EnabledRun(p: Policy) returns (steps: seq<Step>, now: int)
    requires p.maxUpdates >= 1 && Enforced(p) && p.updatesEnabled
    requires !IntervalsShort(p.periodInterval, p.updateTimeout)
    ensures SettledRun(Fresh(Groups(p, false)), NODE, steps, "g", p)
    ensures 0 <= now && (steps != [] ==> 0 <= steps[0].now && steps[|steps| - 1].now <= now)
    ensures !LimitRespected(Exec(Fresh(Groups(p, false)), NODE, steps), "g", p, now)
  {
    var names := MakeNames(p.maxUpdates + 1);
    var trail, db;
    steps, trail, db := Overrun(p, names, p.maxUpdates);
    now := Base(p) + VALIDITY;
    ReachedIsRun(p, steps, trail, Moment(now, db));
    EveryoneCounts(db, p, names);
    TooMany(db, p, Prefix(names, p.maxUpdates + 1));
    hide Stage, Reached, Base, LimitRespected, SettledRun, Exec, IntervalsShort, Distinct, Groups, Prefix;
  }

  /** The run in which the limit is exceeded; it starts by enabling updates. */
  lemma BoundFails(p: Policy) returns (steps: seq<Step>, now: int)
    requires p.maxUpdates >= 1 && Enforced(p) && !IntervalsShort(p.periodInterval, p.updateTimeout)
    ensures Groups(p, false)["g"].policy == p && SettledRun(Fresh(Groups(p, false)), NODE, steps, "g", p)
    ensures steps != [] ==> steps[|steps| - 1].now <= now
    ensures !LimitRespected(Exec(Fresh(Groups(p, false)), NODE, steps), "g", p, now)
  {
    var enabled := p.(updatesEnabled := true);
    var rest;
    rest, now := EnabledRun(enabled);
    var first := Step(0, GroupUpdate("g", enabled));
    Enabling(p);
    hide SettledRun, Exec, IntervalsShort, Apply, GrantedCount, InProgressCount;
    ExecAfter(Fresh(Groups(p, false)), NODE, first, rest);
    SettledAfter(Fresh(Groups(p, false)), NODE, first, rest, "g", p, enabled);
    steps := [first] + rest;
  }

  lemma Enabling(p: Policy)
    ensures Apply(Fresh(Groups(p, false)), NODE, Step(0, GroupUpdate("g", p.(updatesEnabled := true))))
            == Fresh(Groups(p.(updatesEnabled := true), false))
  {
    var enabled := p.(updatesEnabled := true);
    assert Groups(p, false)["g" := Groups(enabled, false)["g"]] == Groups(enabled, false);
  }
}
