/**
 Channels of a reachable catalogue as the update service loads them. They have the shape the floor walk
 assumes, the blacklist checks of the update service can never fire on them, and some of them do not show
 a client every floor.
 */
module ChannelViews {
  import opened Versions
  import opened Wrappers
  import opened Catalogue
  import opened CatalogueRuns
  import Floors
  import Runtime

  function BlacklistOf(t: Tables, p: string): set<string> {
    set x | x in t.blacklist && x.package == p :: x.channel
  }

  ghost predicate ShowsPackage(t: Tables, p: Floors.Package, blacklist: set<string>) {
    p.id in t.packages && p.version == t.packages[p.id].version && p.blacklist == blacklist
  }

  /**
   `ch` is channel `c` as the update service loads it: the target with its blacklist, the floors in
   ascending order of their numeric cores. The floor query leaves the blacklists of floors out;
   `withBlacklists` says what would happen if it did not.
   */
  ghost predicate Shows(t: Tables, c: string, ch: Floors.Channel, withBlacklists: bool) {
    && c in t.channels && ch.id == c
    && (match t.channels[c].package
        case None => ch.target.None?
        case Some(p) =>
            ch.target.Some? && ch.target.value.id == p && ShowsPackage(t, ch.target.value, BlacklistOf(t, p)))
    && (forall i | 0 <= i < |ch.floors| ::
          && Pair(c, ch.floors[i].id) in t.floors && ch.floors[i].isFloor
          && ShowsPackage(t, ch.floors[i], if withBlacklists then BlacklistOf(t, ch.floors[i].id) else {}))
    && (forall i, j | 0 <= i < j < |ch.floors| ::
          ch.floors[i].id != ch.floors[j].id && ch.floors[i].version.core <= ch.floors[j].version.core)
    && (forall x | x in t.floors && x.channel == c :: exists i | 0 <= i < |ch.floors| :: ch.floors[i].id == x.package)
  }

  /** These packages, in ascending order of their numeric cores. */
  predicate InOrder(t: Tables, order: seq<string>) {
    && (forall i | 0 <= i < |order| :: order[i] in t.packages)
    && (forall i, j | 0 <= i < j < |order| ::
          order[i] != order[j] && t.packages[order[i]].version.core <= t.packages[order[j]].version.core)
  }

  lemma {:induction false} InsertInOrder(t: Tables, order: seq<string>, p: string) returns (k: nat)
    requires InOrder(t, order) && p in t.packages && p !in order
    ensures k <= |order| && InOrder(t, order[..k] + [p] + order[k..])
  {
    k := 0;
    while k < |order| && t.packages[order[k]].version.core <= t.packages[p].version.core
      invariant k <= |order|
      invariant forall i | 0 <= i < k :: t.packages[order[i]].version.core <= t.packages[p].version.core
    {
      k := k + 1;
    }
  }

  lemma {:induction false} PutInOrder(t: Tables, ids: set<string>) returns (order: seq<string>)
    requires ids <= t.packages.Keys
    ensures InOrder(t, order) && forall p :: p in order <==> p in ids
  {
    order := [];
    if ids != {} {
      var p :| p in ids;
      var rest := PutInOrder(t, ids - {p});
      var k := InsertInOrder(t, rest, p);
      hide InOrder;
      order := rest[..k] + [p] + rest[k..];
      assert forall x :: x in rest <==> x in rest[..k] || x in rest[k..] by {
        assert rest == rest[..k] + rest[k..];
      }
    }
  }

  const NO_PAYLOAD := Floors.Payload(false, "", "", "", [], None)

  function Loaded(t: Tables, p: string, blacklist: set<string>, isFloor: bool): Floors.Package
    requires p in t.packages
  {
    Floors.Package(p, t.packages[p].version, blacklist, isFloor, None, NO_PAYLOAD)
  }

  /** Each channel of a reachable catalogue is seen by the update service in some way. */
  lemma {:induction false} EveryChannelShows(requests: seq<Request>, c: string, withBlacklists: bool)
    returns (ch: Floors.Channel)
    requires c in Exec(requests).channels
    ensures Shows(Exec(requests), c, ch, withBlacklists)
  {
    hide Exec;
    var t := Exec(requests);
    RunsKeepConsistent(requests);
    assert ChannelOk(t, c);
    FloorsFit(t);
    hide Consistent, ChannelOk;
    var order := PutInOrder(t, set x | x in t.floors && x.channel == c :: x.package);
    ch := LoadedChannel(t, c, order, withBlacklists);
    hide InOrder, Fits, LoadedChannel;
    LoadedIsShown(t, c, order, withBlacklists);
  }

  function LoadedChannel(t: Tables, c: string, order: seq<string>, withBlacklists: bool): Floors.Channel
    requires c in t.channels && (t.channels[c].package.Some? ==> t.channels[c].package.value in t.packages)
    requires forall i | 0 <= i < |order| :: order[i] in t.packages
  {
    var package := t.channels[c].package;
    Floors.Channel(c,
      if package.None? then None else Some(Loaded(t, package.value, BlacklistOf(t, package.value), false)),
      seq(|order|, i requires 0 <= i < |order| =>
        Loaded(t, order[i], if withBlacklists then BlacklistOf(t, order[i]) else {}, true)))
  }

  lemma {:induction false} LoadedIsShown(t: Tables, c: string, order: seq<string>, withBlacklists: bool)
    requires c in t.channels && (t.channels[c].package.Some? ==> t.channels[c].package.value in t.packages)
    requires InOrder(t, order) && forall p :: p in order <==> Pair(c, p) in t.floors
    ensures Shows(t, c, LoadedChannel(t, c, order, withBlacklists), withBlacklists)
  {
    hide BlacklistOf;
    var ch := LoadedChannel(t, c, order, withBlacklists);
    forall x | x in t.floors && x.channel == c
      ensures exists i | 0 <= i < |ch.floors| :: ch.floors[i].id == x.package
    {
      assert x == Pair(c, x.package) && x.package in order;
      var i :| 0 <= i < |order| && order[i] == x.package;
      assert ch.floors[i].id == x.package;
    }
    assert forall i | 0 <= i < |order| :: order[i] in order;
  }

  /** Packages of one channel are told apart by their versions. */
  lemma {:induction false} VersionsTellApart(t: Tables, c: string, p: string, q: string)
    requires Consistent(t) && Fits(t, c, p) && Fits(t, c, q)
    ensures p == q <==> t.packages[p].version == t.packages[q].version
  {
    assert PackageOk(t, p);
    assert SameKey(t.packages[q], t.packages[p]) <==> t.packages[p].version == t.packages[q].version;
  }

  /** The channel of every reachable catalogue meets the assumptions of the floor walk. */
  lemma {:induction false} ReachableChannelsAreWellFormed(requests: seq<Request>, c: string, ch: Floors.Channel,
      withBlacklists: bool)
    requires Shows(Exec(requests), c, ch, withBlacklists) && ch.target.Some?
    ensures Floors.WellFormed(ch)
  {
    hide Exec;
    var t := Exec(requests);
    RunsKeepConsistent(requests);
    assert ChannelOk(t, c);
    var target := ch.target.value;
    forall i | 0 <= i < |ch.floors|
      ensures Fits(t, c, ch.floors[i].id)
      ensures ch.floors[i].id == target.id <==> ch.floors[i].version == target.version
    {
      assert Fits(t, Pair(c, ch.floors[i].id).channel, Pair(c, ch.floors[i].id).package);
      VersionsTellApart(t, c, ch.floors[i].id, target.id);
    }
    forall i, j | 0 <= i < j < |ch.floors|
      ensures ch.floors[i].version != ch.floors[j].version
    {
      VersionsTellApart(t, c, ch.floors[i].id, ch.floors[j].id);
    }
  }

  /** No package that a reachable channel offers blacklists that channel. */
  lemma {:induction false} OfferedIsNeverBlacklisted(requests: seq<Request>, c: string, ch: Floors.Channel,
      withBlacklists: bool, v: Version, cap: nat)
    requires Shows(Exec(requests), c, ch, withBlacklists) && ch.target.Some?
    ensures c !in ch.target.value.blacklist
    ensures !Runtime.SomeBlacklisted(Floors.PackagesForUpdate(ch, v, cap), c)
  {
    hide Exec;
    var t := Exec(requests);
    RunsKeepConsistent(requests);
    assert ChannelOk(t, c);
    var required := Floors.InRangeFloors(ch.floors, v, ch.target.value.version);
    forall p | p in Floors.PackagesForUpdate(ch, v, cap)
      ensures c !in p.blacklist
    {
      if p != ch.target.value {
        assert p in Floors.Cut(required, cap) && p in required && p in ch.floors;
        var i :| 0 <= i < |ch.floors| && ch.floors[i] == p;
        assert Fits(t, Pair(c, p.id).channel, Pair(c, p.id).package);
      }
    }
  }

  // ----- channels that do not show a client every floor -----

  /** The requests that set up a channel "c" with a target and one floor. */
  function Setup(floor: Version, target: Version): seq<Request> {
    [AddApp("a", AppRow("team", "app"))]
    + [AddPackage("f", "a", 0, Some(floor), [], true)]
    + [AddPackage("p", "a", 0, Some(target), [], true)]
    + [AddChannel("c", "", ChannelRow("a", "stable", 0, Some("p")))]
    + [AddFloor("c", "f", None)]
  }

  /** The channel as the update service loads it. */
  function SetupChannel(floor: Version, target: Version): Floors.Channel {
    Floors.Channel("c", Some(Floors.Package("p", target, {}, false, None, NO_PAYLOAD)),
                   [Floors.Package("f", floor, {}, true, None, NO_PAYLOAD)])
  }

  lemma {:induction false} ExecNext(requests: seq<Request>, r: Request, t: Tables)
    requires Exec(requests) == t
    ensures Exec(requests + [r]) == Apply(t, r)
  {
    assert (requests + [r])[..|requests|] == requests;
  }

  lemma {:induction false} PackageAdded(t: Tables, id: string, row: PackageRow)
    requires id !in t.packages && row.app in t.apps && row.arch <= LAST_ARCH && !Taken(t.packages, id, row)
    ensures Apply(t, AddPackage(id, row.app, row.arch, Some(row.version), [], true))
            == t.(packages := t.packages[id := row])
  {
    assert t.blacklist + PairsOf(id, []) == t.blacklist;
  }

  /** The tables after the first requests: an application, then its packages. */
  function SetupStart(packages: map<string, PackageRow>): Tables {
    Tables(map["a" := AppRow("team", "app")], packages, map[], map[], map[], {})
  }

  function SetupTables(floor: Version, target: Version): Tables {
    SetupStart(map["f" := PackageRow("a", 0, floor), "p" := PackageRow("a", 0, target)]).(
      channels := map["c" := ChannelRow("a", "stable", 0, Some("p"))], floors := map[Pair("c", "f") := None])
  }

  lemma {:induction false} SetupPackages(floor: Version, target: Version)
    requires floor != target
    ensures Exec(Setup(floor, target)[..3])
            == SetupStart(map["f" := PackageRow("a", 0, floor), "p" := PackageRow("a", 0, target)])
  {
    var rs := Setup(floor, target);
    var f, p := PackageRow("a", 0, floor), PackageRow("a", 0, target);
    assert rs[..1] == [] + [rs[0]] && rs[..2] == rs[..1] + [rs[1]] && rs[..3] == rs[..2] + [rs[2]];
    assert Exec([]) == Tables(map[], map[], map[], map[], map[], {});
    hide Setup, Exec;
    ExecNext([], rs[0], Tables(map[], map[], map[], map[], map[], {}));
    assert Apply(Tables(map[], map[], map[], map[], map[], {}), rs[0]) == SetupStart(map[]);
    hide Apply;
    ExecNext(rs[..1], rs[1], SetupStart(map[]));
    PackageAdded(SetupStart(map[]), "f", f);
    ExecNext(rs[..2], rs[2], SetupStart(map["f" := f]));
    assert !Taken(map["f" := f], "p", p);
    PackageAdded(SetupStart(map["f" := f]), "p", p);
    assert map["f" := f]["p" := p] == map["f" := f, "p" := p];
  }

  lemma {:induction false} SetupCompletes(floor: Version, target: Version)
    requires floor != target
    ensures Exec(Setup(floor, target)) == SetupTables(floor, target)
  {
    var rs := Setup(floor, target);
    SetupPackages(floor, target);
    assert rs[..4] == rs[..3] + [rs[3]] && rs == rs[..4] + [rs[4]];
    assert rs[3] == AddChannel("c", "", ChannelRow("a", "stable", 0, Some("p"))) && rs[4] == AddFloor("c", "f", None);
    var t := SetupStart(map["f" := PackageRow("a", 0, floor), "p" := PackageRow("a", 0, target)]);
    var t' := t.(channels := map["c" := ChannelRow("a", "stable", 0, Some("p"))]);
    hide Setup, Exec, Apply;
    ExecNext(rs[..3], rs[3], t);
    ChannelGoesIn(t);
    ExecNext(rs[..4], rs[4], t');
    FloorGoesIn(t');
  }

  lemma ChannelGoesIn(t: Tables)
    requires "a" in t.apps && t.channels == map[] && t.blacklist == {}
    requires "p" in t.packages && t.packages["p"].app == "a" && t.packages["p"].arch == 0
    ensures var row := ChannelRow("a", "stable", 0, Some("p"));
            Apply(t, AddChannel("c", "", row)) == t.(channels := map["c" := row])
  {
    assert t.channels["c" := ChannelRow("a", "stable", 0, Some("p"))]
        == map["c" := ChannelRow("a", "stable", 0, Some("p"))];
  }

  lemma FloorGoesIn(t: Tables)
    requires t.floors == map[] && t.blacklist == {} && "c" in t.channels && "f" in t.packages
    requires t.channels["c"].arch == t.packages["f"].arch && t.channels["c"].app == t.packages["f"].app
    ensures Apply(t, AddFloor("c", "f", None)) == t.(floors := map[Pair("c", "f") := None])
  {
    assert t.floors[Pair("c", "f") := None] == map[Pair("c", "f") := None];
  }

  lemma {:induction false} SetupIsShown(floor: Version, target: Version)
    requires floor != target
    ensures Shows(Exec(Setup(floor, target)), "c", SetupChannel(floor, target), false)
  {
    SetupCompletes(floor, target);
    hide Exec, Setup;
    assert BlacklistOf(SetupTables(floor, target), "p") == {};
    assert SetupChannel(floor, target).floors[0].id == "f";
  }

  /**
   A reachable channel whose floor a client never sees: the client runs a prerelease of the floor's
   version, which has the same numeric core.
   */
  lemma {:induction false} FloorIsSkipped()
    ensures var v, floor, target := Version(1, -1), Version(1, 0), Version(2, 0);
            var ch := SetupChannel(floor, target);
            && Shows(Exec(Setup(floor, target)), "c", ch, false) && !Floors.OrdersAgree(ch, v)
            && Floors.RequiredStops(ch, v) == [floor, target] && Floors.Walk(ch, v) == [target]
  {
    var v, floor, target := Version(1, -1), Version(1, 0), Version(2, 0);
    var ch := SetupChannel(floor, target);
    SetupIsShown(floor, target);
    assert Floors.FloorsBetween(ch.floors, v, target) == [floor];
    assert Floors.InRangeFloors(ch.floors, v, target) == [];
    hide Exec, Setup, Shows;
    assert ch.floors[0].version.core == v.core;
  }

  /**
   A reachable channel that leads a client past its target: the target is a prerelease of the floor's
   version, so the query finds the floor on the way to it.
   */
  lemma {:induction false} WalkEndsBeyondTarget()
    ensures var v, floor, target := Version(1, 0), Version(2, 0), Version(2, -1);
            var ch := SetupChannel(floor, target);
            && Shows(Exec(Setup(floor, target)), "c", ch, false) && !Floors.OrdersAgree(ch, v)
            && Floors.RequiredStops(ch, v) == [target] && Floors.Walk(ch, v) == [floor] && Less(target, floor)
  {
    var v, floor, target := Version(1, 0), Version(2, 0), Version(2, -1);
    var ch := SetupChannel(floor, target);
    SetupIsShown(floor, target);
    assert Floors.FloorsBetween(ch.floors, v, target) == [];
    assert Floors.InRangeFloors(ch.floors, v, target) == ch.floors;
    hide Exec, Setup, Shows;
    assert Floors.InRange(v, ch.floors[0].version, target) && !Floors.EarlierSameCore(ch, 0);
    assert Floors.Walk(ch, v) == [floor] + Floors.Walk(ch, floor);
  }

  // ----- the blacklist checks of the update service -----

  lemma GrantIsServed(db: Runtime.Db, cfg: Runtime.Config, clock: Runtime.Clock, req: Runtime.Request, db1: Runtime.Db,
                      row: Runtime.Row, ch: Floors.Channel)
    requires Runtime.Register(db, clock.now, req) == Some(Runtime.Registration(db1, Some(row)))
    requires db.groups[req.group].channel == Some(ch) && ch.target.Some? && ch.id !in ch.target.value.blacklist
    requires row.status == Some(Runtime.UpdateGranted) && row.lastUpdateVersion.Some?
    requires Versions.Less(req.version.value, row.lastUpdateVersion.value)
    ensures Runtime.Check(db, cfg, clock, req).result
            == Ok(Floors.PackagesForUpdate(ch, req.version.value, cfg.maxFloors)[0])
  {
    hide Runtime.Register, Floors.PackagesForUpdate, Runtime.GrantOrRefuse;
  }

  /**
   First guard: a granted instance that is still behind its granted version is served. It is never
   completed because the target blacklists the channel.
   */
  lemma {:induction false} GrantedGuardUnreachable(requests: seq<Request>, c: string, ch: Floors.Channel,
      withBlacklists: bool, db: Runtime.Db, cfg: Runtime.Config, clock: Runtime.Clock, req: Runtime.Request,
      db1: Runtime.Db, row: Runtime.Row)
    requires Shows(Exec(requests), c, ch, withBlacklists) && ch.target.Some?
    requires Runtime.Register(db, clock.now, req) == Some(Runtime.Registration(db1, Some(row)))
    requires db.groups[req.group].channel == Some(ch)
    requires row.status == Some(Runtime.UpdateGranted) && row.lastUpdateVersion.Some?
    requires Versions.Less(req.version.value, row.lastUpdateVersion.value)
    ensures Runtime.Check(db, cfg, clock, req).result
            == Ok(Floors.PackagesForUpdate(ch, req.version.value, cfg.maxFloors)[0])
  {
    OfferedIsNeverBlacklisted(requests, c, ch, withBlacklists, req.version.value, cfg.maxFloors);
    assert ch.id == c;
    hide Exec, Shows, Runtime.Register, Runtime.Check, Floors.PackagesForUpdate, Runtime.SomeBlacklisted;
    GrantIsServed(db, cfg, clock, req, db1, row, ch);
  }

  /** Second guard: a check of an idle instance behind the target is never refused as blacklisted. */
  lemma {:induction false} CheckGuardUnreachable(requests: seq<Request>, c: string, ch: Floors.Channel,
      withBlacklists: bool, db: Runtime.Db, cfg: Runtime.Config, clock: Runtime.Clock, req: Runtime.Request)
    requires Shows(Exec(requests), c, ch, withBlacklists) && ch.target.Some?
    requires req.group in db.groups && db.groups[req.group].channel == Some(ch)
    requires req.version.Some? && Versions.Less(req.version.value, ch.target.value.version)
    requires match Runtime.Register(db, clock.now, req)
             case Some(Registration(_, Some(row))) => row.status.Some? ==> !Runtime.InProgressStatus(row.status.value)
             case _ => true
    ensures Runtime.Check(db, cfg, clock, req).result != Err(Runtime.NoUpdatePackageAvailable)
  {
    OfferedIsNeverBlacklisted(requests, c, ch, withBlacklists, req.version.value, cfg.maxFloors);
    hide Exec, Shows, Runtime.Register, Floors.PackagesForUpdate, Runtime.GrantOrRefuse;
    var packages := Floors.PackagesForUpdate(ch, req.version.value, cfg.maxFloors);
    assert packages[0] in packages;
    var Registration(db1, snapshot) := Runtime.Register(db, clock.now, req).value;
    RefusalIsNotNoPackage(db1, clock, req.instance, snapshot, req.group, packages[0].version);
  }

  /** Third guard: nor is a syncer's check, whatever the syncer's state. */
  lemma {:induction false} SyncerGuardUnreachable(requests: seq<Request>, c: string, ch: Floors.Channel,
      withBlacklists: bool, db: Runtime.Db, cfg: Runtime.Config, clock: Runtime.Clock, req: Runtime.Request)
    requires Shows(Exec(requests), c, ch, withBlacklists) && ch.target.Some?
    requires req.group in db.groups && db.groups[req.group].channel == Some(ch)
    requires req.version.Some? && Versions.Less(req.version.value, ch.target.value.version)
    ensures Runtime.SyncerCheck(db, cfg, clock, req).result != Err(Runtime.NoUpdatePackageAvailable)
  {
    OfferedIsNeverBlacklisted(requests, c, ch, withBlacklists, req.version.value, cfg.maxFloors);
    hide Exec, Shows, Runtime.Register, Floors.PackagesForUpdate, Runtime.GrantOrRefuse;
    var packages := Floors.PackagesForUpdate(ch, req.version.value, cfg.maxFloors);
    var Registration(db1, snapshot) := Runtime.Register(db, clock.now, req).value;
    RefusalIsNotNoPackage(db1, clock, req.instance, snapshot, req.group, packages[|packages| - 1].version);
  }

  lemma RefusalIsNotNoPackage(db: Runtime.Db, clock: Runtime.Clock, instance: string, snapshot: Option<Runtime.Row>,
      group: string, v: Version)
    requires group in db.groups && (snapshot.Some? ==> instance in db.rows)
    ensures Runtime.GrantOrRefuse(db, clock, instance, snapshot, group, v).result
            != Err(Runtime.NoUpdatePackageAvailable)
  {
  }
}
