/** What a syncer is handed when its check is granted, and what the server notes about it. */
module SyncerChecks {
  import opened Versions
  import opened Wrappers
  import opened Floors
  import opened Runtime
  import opened RuntimeRuns

  /**
   A list for a syncer at `v`: floors of the channel that lie in the range of the floor query, in ascending order,
   and at the end the target, which does not follow itself. A floor is missing only if the cap is reached, and then
   it lies no lower than those that are sent.
   */
  ghost predicate ListFor(ch: Channel, v: Version, cap: nat, packages: seq<Package>)
    requires ch.target.Some?
  {
    var t := ch.target.value;
    packages != []
    && var sent, last := packages[..|packages| - 1], packages[|packages| - 1];
       && last.id == t.id && last.version == t.version && (sent != [] ==> sent[|sent| - 1].id != t.id)
       && (forall p | p in sent :: p in ch.floors && InRange(v, p.version, t.version))
       && Ascending(sent)
       && |sent| <= cap
       && (forall p | p in ch.floors && InRange(v, p.version, t.version) && p !in packages ::
             && (|sent| == cap || (|packages| == cap && last in ch.floors))
             && forall q | q in sent :: q.version.core <= p.version.core)
  }

  ghost predicate Ascending(s: seq<Package>) {
    forall i, j | 0 <= i < j < |s| :: s[i] != s[j] && s[i].version.core <= s[j].version.core
  }

  lemma {:induction false} InRangeAscends(floors: seq<Package>, v: Version, t: Version)
    requires Ascending(floors)
    ensures Ascending(InRangeFloors(floors, v, t))
  {
    if floors != [] {
      var rest := floors[1..];
      assert Ascending(rest) by {
        assert forall i | 0 <= i < |rest| :: rest[i] == floors[i + 1];
      }
      InRangeAscends(rest, v, t);
      var r := InRangeFloors(rest, v, t);
      assert InRangeFloors(floors, v, t) == r || InRangeFloors(floors, v, t) == [floors[0]] + r;
      forall p | p in r
        ensures p != floors[0] && floors[0].version.core <= p.version.core
      {
        var k :| 0 <= k < |rest| && rest[k] == p;
        assert floors[k + 1] == p;
      }
      hide InRangeFloors;
      FirstAscends(floors[0], r);
    }
  }

  lemma FirstAscends(first: Package, r: seq<Package>)
    requires Ascending(r) && forall p | p in r :: p != first && first.version.core <= p.version.core
    ensures Ascending([first] + r)
  {
    assert forall i | 0 <= i < |r| :: r[i] in r;
  }

  /** How the list is made: as many floors in range as the cap lets through, then the target if it is not the last. */
  lemma {:induction false} ListShape(ch: Channel, v: Version, cap: nat)
    requires ch.target.Some?
    ensures var required := InRangeFloors(ch.floors, v, ch.target.value.version);
            var packages := PackagesForUpdate(ch, v, cap);
            var n := |packages| - 1;
            && packages[..n] <= required && n <= cap
            && ((packages[n] == ch.target.value && (n == cap || n == |required|))
                || (packages <= required && (n + 1 == cap || n + 1 == |required|)))
  {
    hide InRangeFloors;
  }

  lemma {:induction false} TargetOnce(ch: Channel, v: Version, cap: nat)
    requires WellFormed(ch) && Ascending(InRangeFloors(ch.floors, v, ch.target.value.version))
    ensures var packages := PackagesForUpdate(ch, v, cap);
            |packages| > 1 ==> packages[|packages| - 2].id != ch.target.value.id
  {
    hide InRangeFloors;
    var required, packages := InRangeFloors(ch.floors, v, ch.target.value.version), PackagesForUpdate(ch, v, cap);
    if packages <= required && |packages| > 1 {
      var a, b := required[|packages| - 2], required[|packages| - 1];
      assert a in required && b in required && a in ch.floors && b in ch.floors && a != b;
      var i :| 0 <= i < |ch.floors| && ch.floors[i] == a;
      var j :| 0 <= j < |ch.floors| && ch.floors[j] == b;
      assert ch.floors[i].version != ch.floors[j].version;
    }
    hide WellFormed;
  }

  /** The list the server puts together is such a list. */
  lemma {:induction false} ListIsFor(ch: Channel, v: Version, cap: nat)
    requires WellFormed(ch)
    ensures ListFor(ch, v, cap, PackagesForUpdate(ch, v, cap))
  {
    var required, packages := InRangeFloors(ch.floors, v, ch.target.value.version), PackagesForUpdate(ch, v, cap);
    LastIsTarget(ch, v, cap);
    assert Ascending(ch.floors);
    InRangeAscends(ch.floors, v, ch.target.value.version);
    ListShape(ch, v, cap);
    assert ch.target.Some? && forall p ::
        p in required <==> p in ch.floors && InRange(v, p.version, ch.target.value.version);
    TargetOnce(ch, v, cap);
    hide InRangeFloors, PackagesForUpdate, WellFormed, InRange, Ascending, ListFor;
    ListOf(ch, v, cap, required, packages);
  }

  lemma {:induction false} ListOf(ch: Channel, v: Version, cap: nat, required: seq<Package>, packages: seq<Package>)
    requires ch.target.Some? && Ascending(required) && packages != []
    requires forall p :: p in required <==> p in ch.floors && InRange(v, p.version, ch.target.value.version)
    requires var t, last := ch.target.value, packages[|packages| - 1]; last.id == t.id && last.version == t.version
    requires |packages| > 1 ==> packages[|packages| - 2].id != ch.target.value.id
    requires var n := |packages| - 1;
             && packages[..n] <= required && n <= cap
             && ((packages[n] == ch.target.value && (n == cap || n == |required|))
                 || (packages <= required && (n + 1 == cap || n + 1 == |required|)))
    ensures ListFor(ch, v, cap, packages)
  {
    var n, last := |packages| - 1, packages[|packages| - 1];
    assert forall p | p in packages[..n] :: p in required;
    assert packages <= required ==> last == required[n] && last in required;
    assert Ascending(packages[..n]);
    forall p | p in required && p !in packages
      ensures n == cap || (|packages| == cap && last in ch.floors)
      ensures forall q | q in packages[..n] :: q.version.core <= p.version.core
    {
      LeftOut(required, packages, cap, p);
    }
    hide InRange, Ascending;
  }

  lemma LeftOut(required: seq<Package>, packages: seq<Package>, cap: nat, p: Package)
    requires Ascending(required) && packages != [] && packages[..|packages| - 1] <= required
    requires |packages| - 1 == cap || |packages| - 1 == |required|
             || (packages <= required && (|packages| == cap || |packages| == |required|))
    requires p in required && p !in packages
    ensures |packages| - 1 == cap || (|packages| == cap && packages <= required)
    ensures forall q | q in packages[..|packages| - 1] :: q.version.core <= p.version.core
  {
    var n := |packages| - 1;
    var k :| 0 <= k < |required| && required[k] == p;
    assert forall i | 0 <= i < n :: packages[..n][i] == required[i] && packages[i] in packages;
    assert k >= n;
  }

  /** Every syncer check that is granted hands out such a list for the channel of the group. */
  lemma {:induction false} GrantedSyncerGetsList(db: Db, cfg: Config, clock: Clock, req: Request, ch: Channel)
    requires SyncerCheck(db, cfg, clock, req).result.Ok?
    requires req.group in db.groups && db.groups[req.group].channel == Some(ch) && WellFormed(ch)
    ensures req.version.Some?
    ensures ListFor(ch, req.version.value, cfg.maxFloors, SyncerCheck(db, cfg, clock, req).result.value)
  {
    SyncerGetsPackages(db, cfg, clock, req);
    ListIsFor(ch, req.version.value, cfg.maxFloors);
    hide SyncerCheck, ListFor, PackagesForUpdate;
  }

  lemma SyncerGetsPackages(db: Db, cfg: Config, clock: Clock, req: Request)
    requires SyncerCheck(db, cfg, clock, req).result.Ok?
    ensures req.version.Some? && req.group in db.groups && db.groups[req.group].HasPackage()
    ensures SyncerCheck(db, cfg, clock, req).result.value
            == PackagesForUpdate(db.groups[req.group].channel.value, req.version.value, cfg.maxFloors)
  {
    hide Register, PackagesForUpdate, GrantOrRefuse, SomeBlacklisted;
  }

  /**
   After a granted check of a syncer its row holds a grant: for the target, unless it held one already, which then
   stays as it was.
   */
  lemma {:induction false} SyncerIsGrantedTarget(db: Db, cfg: Config, clock: Clock, req: Request, ch: Channel)
    requires SyncerCheck(db, cfg, clock, req).result.Ok?
    requires req.group in db.groups && db.groups[req.group].channel == Some(ch) && WellFormed(ch)
    ensures var after := SyncerCheck(db, cfg, clock, req).db;
            && req.instance in after.rows && after.rows[req.instance].status == Some(UpdateGranted)
            && if req.instance in db.rows && db.rows[req.instance].status == Some(UpdateGranted) then
                 SameProgress(after.rows[req.instance], db.rows[req.instance])
               else
                 && after.rows[req.instance].lastUpdateVersion == Some(ch.target.value.version)
                 && after.rows[req.instance].grantedAt == Some(clock.now)
  {
    var Registration(db1, snapshot) := Register(db, clock.now, req).value;
    SyncerGetsPackages(db, cfg, clock, req);
    SyncerGrantGoesThrough(db, cfg, clock, req, db1, snapshot);
    RegisterOnlyChecksIn(db, clock.now, req);
    LastIsTarget(ch, req.version.value, cfg.maxFloors);
    hide Register, WellFormed, GrantOrRefuse, SyncerCheck, OnlyCheckedIn, PackagesForUpdate;
    SyncerGrant(db1, clock, req.instance, snapshot, req.group, ch.target.value.version);
    ProgressSoFar(db, db1, req.instance);
  }

  lemma SyncerGrantGoesThrough(db: Db, cfg: Config, clock: Clock, req: Request, db1: Db, snapshot: Option<Row>)
    requires SyncerCheck(db, cfg, clock, req).result.Ok?
    requires Register(db, clock.now, req) == Some(Registration(db1, snapshot))
    ensures req.group in db1.groups && (snapshot.Some? ==> req.instance in db1.rows)
    ensures var packages := SyncerCheck(db, cfg, clock, req).result.value;
            packages != []
            && var out := GrantOrRefuse(db1, clock, req.instance, snapshot, req.group,
                   packages[|packages| - 1].version);
               out.result.Ok? && SyncerCheck(db, cfg, clock, req).db == out.db
  {
    hide Register, PackagesForUpdate, GrantOrRefuse, SomeBlacklisted;
  }

  lemma ProgressSoFar(db: Db, db1: Db, i: string)
    requires OnlyCheckedIn(db, db1) && i in db1.rows
    ensures if i in db.rows then SameProgress(db.rows[i], db1.rows[i]) else db1.rows[i].status == None
  {
  }

  lemma SyncerGrant(db: Db, clock: Clock, i: string, snapshot: Option<Row>, group: string, v: Version)
    requires group in db.groups && (snapshot.Some? ==> i in db.rows && SameProgress(snapshot.value, db.rows[i]))
    requires GrantOrRefuse(db, clock, i, snapshot, group, v).result.Ok?
    ensures var after := GrantOrRefuse(db, clock, i, snapshot, group, v).db;
            && i in db.rows && i in after.rows && after.rows[i].status == Some(UpdateGranted)
            && if db.rows[i].status == Some(UpdateGranted) then after.rows[i] == db.rows[i]
               else after.rows[i].lastUpdateVersion == Some(v) && after.rows[i].grantedAt == Some(clock.now)
  {
    hide Refusal;
  }
}
