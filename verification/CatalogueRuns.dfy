/** What every sequence of admin requests keeps: the rows of the catalogue fit together. */
module CatalogueRuns {
  import opened Versions
  import opened Wrappers
  import opened Catalogue

  datatype Request =
    | AddApp(id: string, application: AppRow)
    | UpdateApp(id: string, name: string)
    | DeleteApp(id: string)
    | AddPackage(id: string, app: string, arch: nat, version: Option<Version>, blacklist: seq<string>, restOk: bool)
    | UpdatePackage(id: string, version: Option<Version>, blacklist: seq<string>, restOk: bool)
    | DeletePackage(id: string)
    | AddChannel(id: string, given: string, channel: ChannelRow)
    | UpdateChannel(id: string, name: string, package: Option<string>)
    | DeleteChannel(id: string)
    | AddFloor(channelId: string, packageId: string, reason: Option<string>)
    | RemoveFloor(channelId: string, packageId: string)
    | AddGroup(id: string, group: GroupRow)
    | UpdateGroup(id: string, group: GroupRow)
    | DeleteGroup(id: string)

  function Apply(t: Tables, r: Request): Tables {
    match r
    case AddApp(id, application) => Catalogue.AddApp(t, id, application).tables
    case UpdateApp(id, name) => Catalogue.UpdateApp(t, id, name).tables
    case DeleteApp(id) => Catalogue.DeleteApp(t, id).tables
    case AddPackage(id, app, arch, version, blacklist, restOk) =>
      Catalogue.AddPackage(t, id, app, arch, version, blacklist, restOk).tables
    case UpdatePackage(id, version, blacklist, restOk) => Catalogue.UpdatePackage(t, id, version, blacklist, restOk)
    case DeletePackage(id) => Catalogue.DeletePackage(t, id).tables
    case AddChannel(id, given, channel) => Catalogue.AddChannel(t, id, given, channel).tables
    case UpdateChannel(id, name, package) => Catalogue.UpdateChannel(t, id, name, package).tables
    case DeleteChannel(id) => Catalogue.DeleteChannel(t, id).tables
    case AddFloor(channelId, packageId, reason) => Catalogue.AddFloor(t, channelId, packageId, reason).tables
    case RemoveFloor(channelId, packageId) => Catalogue.RemoveFloor(t, channelId, packageId).tables
    case AddGroup(id, group) => Catalogue.AddGroup(t, id, group).tables
    case UpdateGroup(id, group) => Catalogue.UpdateGroup(t, id, group).tables
    case DeleteGroup(id) => Catalogue.DeleteGroup(t, id).tables
  }

  function Exec(requests: seq<Request>): Tables {
    if requests == [] then Tables(map[], map[], map[], map[], map[], {})
    else Apply(Exec(requests[..|requests| - 1]), requests[|requests| - 1])
  }

  // ----- the invariant -----

  /** Package `p` may be handed out through channel `c`: same application and architecture, not blacklisted. */
  predicate Fits(t: Tables, c: string, p: string) {
    && c in t.channels && p in t.packages
    && t.packages[p].app == t.channels[c].app && t.packages[p].arch == t.channels[c].arch
    && Pair(c, p) !in t.blacklist
  }

  predicate PackageOk(t: Tables, p: string)
    requires p in t.packages
  {
    t.packages[p].app in t.apps && !Taken(t.packages, p, t.packages[p])
  }

  predicate ChannelOk(t: Tables, c: string)
    requires c in t.channels
  {
    t.channels[c].app in t.apps && (t.channels[c].package.Some? ==> Fits(t, c, t.channels[c].package.value))
  }

  predicate GroupOk(t: Tables, g: string)
    requires g in t.groups
  {
    && t.groups[g].app in t.apps
    && (t.groups[g].channel.Some? ==>
          t.groups[g].channel.value in t.channels && t.channels[t.groups[g].channel.value].app == t.groups[g].app)
  }

  ghost predicate Consistent(t: Tables) {
    && (forall p | p in t.packages :: PackageOk(t, p))
    && (forall c | c in t.channels :: ChannelOk(t, c))
    && (forall g | g in t.groups :: GroupOk(t, g))
    && (forall x | x in t.floors :: Fits(t, x.channel, x.package))
    && (forall x | x in t.blacklist :: x.channel in t.channels && x.package in t.packages)
  }

  // ----- the requests keep it -----

  lemma {:induction false} AddPackageKeeps(t: Tables, id: string, app: string, arch: nat, version: Option<Version>,
                                           blacklist: seq<string>, restOk: bool)
    requires Consistent(t)
    ensures Consistent(Catalogue.AddPackage(t, id, app, arch, version, blacklist, restOk).tables)
  {
    var t' := Catalogue.AddPackage(t, id, app, arch, version, blacklist, restOk).tables;
    if t' != t {
      NewKeyKeeps(t, t', id);
      forall x | x in t'.blacklist
        ensures x.channel in t'.channels && x.package in t'.packages
        ensures x !in t.blacklist ==> x.package == id
      {
      }
      hide Taken, PairsOf, NoRepeats;
      forall c | c in t'.channels
        ensures ChannelOk(t', c)
      {
        assert ChannelOk(t, c);
      }
      forall g | g in t'.groups
        ensures GroupOk(t', g)
      {
        assert GroupOk(t, g);
      }
    }
  }

  /** Writing one package row whose key is free keeps every key unique. */
  lemma {:induction false} NewKeyKeeps(t: Tables, t': Tables, id: string)
    requires forall p | p in t.packages :: PackageOk(t, p)
    requires id in t'.packages && t'.packages == t.packages[id := t'.packages[id]] && t'.apps == t.apps
    requires t'.packages[id].app in t.apps && !Taken(t.packages, id, t'.packages[id])
    ensures forall p | p in t'.packages :: PackageOk(t', p)
  {
    forall p | p in t'.packages
      ensures PackageOk(t', p)
    {
      if p != id {
        assert PackageOk(t, p);
      }
    }
  }

  lemma {:induction false} UpdatePackageKeeps(t: Tables, id: string, version: Option<Version>, blacklist: seq<string>,
      restOk: bool)
    requires Consistent(t)
    ensures Consistent(Catalogue.UpdatePackage(t, id, version, blacklist, restOk))
  {
    var t' := Catalogue.UpdatePackage(t, id, version, blacklist, restOk);
    if t' != t {
      assert PackageOk(t, id);
      NewKeyKeeps(t, t', id);
      BlacklistAfterUpdate(t, id, version, blacklist, restOk);
      hide Taken, NewlyRefused, BlacklistRefusal, PairsOf;
      forall c | c in t'.channels
        ensures ChannelOk(t', c)
      {
        assert ChannelOk(t, c);
      }
      forall g | g in t'.groups
        ensures GroupOk(t', g)
      {
        assert GroupOk(t, g);
      }
    }
  }

  /** A successful package update blacklists the requested channels, and only channels the package does not serve. */
  lemma {:induction false} BlacklistAfterUpdate(t: Tables, id: string, version: Option<Version>,
      blacklist: seq<string>, restOk: bool)
    requires Consistent(t) && UpdatePackageErrors(t, id, version, blacklist, restOk) == {}
    ensures var t' := Catalogue.UpdatePackage(t, id, version, blacklist, restOk);
            && (forall c :: Pair(c, id) in t'.blacklist <==> c in blacklist)
            && (forall x: Pair | x.package != id :: x in t'.blacklist <==> x in t.blacklist)
            && (forall c | c in blacklist ::
                c in t.channels && t.channels[c].package != Some(id) && Pair(c, id) !in t.floors)
  {
    assert forall c | c in NewlyRefused(t, id, blacklist) ::
        BlacklistRefusal(t, id, c).value in UpdatePackageErrors(t, id, version, blacklist, restOk);
    forall c | c in blacklist
      ensures c in t.channels && t.channels[c].package != Some(id) && Pair(c, id) !in t.floors
    {
      if Pair(c, id) in t.blacklist {
        assert ChannelOk(t, c);
      } else {
        assert c !in NewlyRefused(t, id, blacklist);
      }
    }
  }

  lemma {:induction false} WithoutPackagesKeeps(t: Tables, gone: set<string>)
    requires Consistent(t)
    ensures Consistent(WithoutPackages(t, gone))
  {
    var t' := WithoutPackages(t, gone);
    forall p | p in t'.packages
      ensures PackageOk(t', p)
    {
      assert PackageOk(t, p);
    }
    forall c | c in t'.channels
      ensures ChannelOk(t', c)
    {
      assert ChannelOk(t, c);
    }
    forall g | g in t'.groups
      ensures GroupOk(t', g)
    {
      assert GroupOk(t, g);
    }
  }

  lemma {:induction false} WithoutChannelsKeeps(t: Tables, gone: set<string>)
    requires Consistent(t)
    ensures Consistent(WithoutChannels(t, gone))
  {
    hide Taken;
    var t' := WithoutChannels(t, gone);
    forall p | p in t'.packages
      ensures PackageOk(t', p)
    {
      assert PackageOk(t, p);
    }
    forall c | c in t'.channels
      ensures ChannelOk(t', c)
    {
      assert ChannelOk(t, c);
    }
    forall g | g in t'.groups
      ensures GroupOk(t', g)
    {
      assert GroupOk(t, g);
    }
  }

  lemma {:induction false} DeleteAppKeeps(t: Tables, id: string)
    requires Consistent(t)
    ensures Consistent(Catalogue.DeleteApp(t, id).tables)
  {
    if id in t.apps {
      var t1 := WithoutPackages(t, PackagesOf(t, id));
      var t2 := WithoutChannels(t1, ChannelsOf(t, id));
      var t' := Catalogue.DeleteApp(t, id).tables;
      WithoutPackagesKeeps(t, PackagesOf(t, id));
      WithoutChannelsKeeps(t1, ChannelsOf(t, id));
      assert t' == t2.(groups := t2.groups - GroupsOf(t, id), apps := t.apps - {id});
      forall p | p in t2.packages
        ensures t2.packages[p].app != id
      {
      }
      forall c | c in t2.channels
        ensures t2.channels[c].app != id
      {
      }
      forall g | g in t2.groups - GroupsOf(t, id)
        ensures t2.groups[g].app != id
      {
      }
      hide Catalogue.DeleteApp, WithoutPackages, WithoutChannels, PackagesOf, ChannelsOf, GroupsOf, Consistent;
      AppLossKeeps(t2, id, t2.groups - GroupsOf(t, id));
    }
  }

  /** An application that no row refers to can go. */
  lemma {:induction false} AppLossKeeps(t: Tables, id: string, groups: map<string, GroupRow>)
    requires Consistent(t) && groups.Keys <= t.groups.Keys && forall g | g in groups :: groups[g] == t.groups[g]
    requires forall p | p in t.packages :: t.packages[p].app != id
    requires forall c | c in t.channels :: t.channels[c].app != id
    requires forall g | g in groups :: groups[g].app != id
    ensures Consistent(t.(groups := groups, apps := t.apps - {id}))
  {
    hide Taken;
    var t' := t.(groups := groups, apps := t.apps - {id});
    forall p | p in t'.packages
      ensures PackageOk(t', p)
    {
      assert PackageOk(t, p);
    }
    forall c | c in t'.channels
      ensures ChannelOk(t', c)
    {
      assert ChannelOk(t, c);
    }
    forall g | g in t'.groups
      ensures GroupOk(t', g)
    {
      assert GroupOk(t, g);
    }
  }

  /** Writing a channel row whose package fits it. */
  lemma {:induction false} WriteChannelKeeps(t: Tables, id: string, row: ChannelRow)
    requires Consistent(t) && row.app in t.apps
    requires id in t.channels ==> row.app == t.channels[id].app && row.arch == t.channels[id].arch
    requires var t' := t.(channels := t.channels[id := row]); row.package.Some? ==> Fits(t', id, row.package.value)
    ensures Consistent(t.(channels := t.channels[id := row]))
  {
    hide Taken;
    var t' := t.(channels := t.channels[id := row]);
    forall p | p in t'.packages
      ensures PackageOk(t', p)
    {
      assert PackageOk(t, p);
    }
    forall c | c in t'.channels
      ensures ChannelOk(t', c)
    {
      assert c in t.channels ==> ChannelOk(t, c);
    }
    forall g | g in t'.groups
      ensures GroupOk(t', g)
    {
      assert GroupOk(t, g);
    }
  }

  lemma {:induction false} ChannelRequestsKeep(t: Tables, r: Request)
    requires Consistent(t) && (r.AddChannel? || r.UpdateChannel?)
    ensures Consistent(Apply(t, r))
  {
    if Apply(t, r) != t {
      assert r.id in t.channels ==> ChannelOk(t, r.id);
      NewChannelBlacklists(t, r.id);
      hide Consistent, ChannelNameTaken;
      WriteChannelKeeps(t, r.id, Apply(t, r).channels[r.id]);
    }
  }

  /** No package blacklists a channel that is not there yet. */
  lemma NewChannelBlacklists(t: Tables, id: string)
    requires Consistent(t)
    ensures id !in t.channels ==> forall p: string :: Pair(id, p) !in t.blacklist
  {
  }

  /** Packages, channels and the blacklist stay; applications are only added; groups and floors fit. */
  lemma {:induction false} SameRowsKeep(t: Tables, t': Tables)
    requires Consistent(t) && t'.packages == t.packages && t'.channels == t.channels && t'.blacklist == t.blacklist
    requires t.apps.Keys <= t'.apps.Keys
    requires forall g | g in t'.groups :: GroupOk(t', g)
    requires forall x | x in t'.floors :: Fits(t', x.channel, x.package)
    ensures Consistent(t')
  {
    hide Taken, GroupOk;
    forall p | p in t'.packages
      ensures PackageOk(t', p)
    {
      assert PackageOk(t, p);
    }
    forall c | c in t'.channels
      ensures ChannelOk(t', c)
    {
      assert ChannelOk(t, c);
    }
  }

  lemma {:induction false} AppRequestsKeep(t: Tables, r: Request)
    requires Consistent(t) && (r.AddApp? || r.UpdateApp?)
    ensures Consistent(Apply(t, r))
  {
    var t' := Apply(t, r);
    hide AppNameTaken, Taken;
    assert t' == t.(apps := t'.apps) && t.apps.Keys <= t'.apps.Keys;
    MoreAppsKeep(t, t'.apps);
  }

  lemma {:induction false} MoreAppsKeep(t: Tables, apps: map<string, AppRow>)
    requires Consistent(t) && t.apps.Keys <= apps.Keys
    ensures Consistent(t.(apps := apps))
  {
    var t' := t.(apps := apps);
    hide Taken;
    forall g | g in t'.groups
      ensures GroupOk(t', g)
    {
      assert GroupOk(t, g);
    }
    assert forall x | x in t.floors :: Fits(t, x.channel, x.package);
    hide Consistent, GroupOk;
    SameRowsKeep(t, t');
  }

  lemma {:induction false} AddFloorKeeps(t: Tables, channel: string, package: string, reason: Option<string>)
    requires Consistent(t)
    ensures Consistent(Catalogue.AddFloor(t, channel, package, reason).tables)
  {
    var t' := Catalogue.AddFloor(t, channel, package, reason).tables;
    FloorsFit(t);
    GroupsFit(t);
    hide Consistent;
    if t' != t {
      assert t' == t.(floors := t.floors[Pair(channel, package) := reason]) && Fits(t, channel, package);
      hide Catalogue.AddFloor;
      FloorsKeep(t, t'.floors);
    }
  }

  lemma {:induction false} RemoveFloorKeeps(t: Tables, channel: string, package: string)
    requires Consistent(t)
    ensures Consistent(Catalogue.RemoveFloor(t, channel, package).tables)
  {
    FloorsFit(t);
    FloorsKeep(t, Catalogue.RemoveFloor(t, channel, package).tables.floors);
  }

  lemma FloorsFit(t: Tables)
    requires Consistent(t)
    ensures forall x | x in t.floors :: Fits(t, x.channel, x.package)
  {
  }

  lemma GroupsFit(t: Tables)
    requires Consistent(t)
    ensures forall g | g in t.groups :: GroupOk(t, g)
  {
  }

  lemma {:induction false} FloorsKeep(t: Tables, floors: map<Pair, Option<string>>)
    requires Consistent(t) && forall x | x in floors :: Fits(t, x.channel, x.package)
    ensures Consistent(t.(floors := floors))
  {
    var t' := t.(floors := floors);
    GroupsFit(t);
    hide Consistent, Taken;
    assert forall g | g in t'.groups :: GroupOk(t, g) == GroupOk(t', g);
    assert forall x | x in floors :: Fits(t, x.channel, x.package) == Fits(t', x.channel, x.package);
    hide GroupOk, Fits;
    SameRowsKeep(t, t');
  }

  lemma {:induction false} GroupRequestsKeep(t: Tables, r: Request)
    requires Consistent(t) && (r.AddGroup? || r.UpdateGroup? || r.DeleteGroup?)
    ensures Consistent(Apply(t, r))
  {
    GroupsFit(t);
    hide Consistent, GroupNameTaken, GroupColumnsOk;
    var t' := Apply(t, r);
    assert t' == t.(groups := t'.groups);
    forall g | g in t'.groups
      ensures GroupOk(t', g)
    {
      assert g in t.groups ==> GroupOk(t, g);
    }
    hide GroupOk, Apply;
    GroupsKeep(t, t'.groups);
  }

  lemma {:induction false} GroupsKeep(t: Tables, groups: map<string, GroupRow>)
    requires Consistent(t)
    requires var t' := t.(groups := groups); forall g | g in groups :: GroupOk(t', g)
    ensures Consistent(t.(groups := groups))
  {
    var t' := t.(groups := groups);
    FloorsFit(t);
    hide Consistent, GroupOk;
    assert forall x | x in t.floors :: Fits(t, x.channel, x.package) == Fits(t', x.channel, x.package);
    hide Fits;
    SameRowsKeep(t, t');
  }

  lemma {:induction false} ApplyKeepsConsistent(t: Tables, r: Request)
    requires Consistent(t)
    ensures Consistent(Apply(t, r))
  {
    match r
    case AddPackage(id, app, arch, version, blacklist, restOk) =>
        AddPackageKeeps(t, id, app, arch, version, blacklist, restOk);
    case UpdatePackage(id, version, blacklist, restOk) => UpdatePackageKeeps(t, id, version, blacklist, restOk);
    case DeletePackage(id) => WithoutPackagesKeeps(t, {id});
    case DeleteChannel(id) => WithoutChannelsKeeps(t, {id});
    case DeleteApp(id) => DeleteAppKeeps(t, id);
    case AddChannel(_, _, _) => ChannelRequestsKeep(t, r);
    case UpdateChannel(_, _, _) => ChannelRequestsKeep(t, r);
    case AddGroup(_, _) => GroupRequestsKeep(t, r);
    case UpdateGroup(_, _) => GroupRequestsKeep(t, r);
    case DeleteGroup(_) => GroupRequestsKeep(t, r);
    case AddFloor(channel, package, reason) => AddFloorKeeps(t, channel, package, reason);
    case RemoveFloor(channel, package) => RemoveFloorKeeps(t, channel, package);
    case _ => AppRequestsKeep(t, r);
  }

  /**
   Every sequence of admin requests, from an empty database, keeps the catalogue consistent: a channel's
   package and each of its floors share the channel's application and architecture and do not blacklist
   it, and a group's channel is in the group's application.
   */
  lemma {:induction false} RunsKeepConsistent(requests: seq<Request>)
    ensures Consistent(Exec(requests))
  {
    hide Consistent, Apply;
    if requests == [] {
      EmptyIsConsistent();
    } else {
      RunsKeepConsistent(requests[..|requests| - 1]);
      ApplyKeepsConsistent(Exec(requests[..|requests| - 1]), requests[|requests| - 1]);
    }
  }

  lemma EmptyIsConsistent()
    ensures Consistent(Exec([]))
  {
  }

  // ----- deletion -----

  /** A package goes away exactly when it is deleted while it is no floor, or together with its application. */
  lemma {:induction false} PackageDeletedIff(t: Tables, r: Request, p: string)
    requires Consistent(t) && p in t.packages
    ensures p !in Apply(t, r).packages <==>
            (r == DeletePackage(p) && !IsFloor(t, p)) || r == DeleteApp(t.packages[p].app)
  {
    assert PackageOk(t, p);
    hide Consistent, PackageOk;
    if !r.DeletePackage? && !r.DeleteApp? {
      OtherRequestsKeepPackages(t, r);
    }
  }

  lemma OtherRequestsKeepPackages(t: Tables, r: Request)
    requires !r.DeletePackage? && !r.DeleteApp?
    ensures t.packages.Keys <= Apply(t, r).packages.Keys
  {
    hide Taken, ChannelNameTaken, GroupNameTaken, AppNameTaken, UpdatePackageErrors, PackageRefusal, ChannelRefusal,
      NoRepeats, PairsOf, GroupColumnsOk;
  }

  /** A floor is unmarked exactly by its removal, or when its channel or its application is deleted. */
  lemma {:induction false} FloorUnmarkedIff(t: Tables, r: Request, c: string, p: string)
    requires Consistent(t) && Pair(c, p) in t.floors
    ensures Pair(c, p) !in Apply(t, r).floors <==>
            r == RemoveFloor(c, p) || r == DeleteChannel(c) || (c in t.channels && r == DeleteApp(t.channels[c].app))
  {
    assert Fits(t, Pair(c, p).channel, Pair(c, p).package);
    hide Consistent, Fits, Catalogue.AddPackage, Catalogue.UpdatePackage, Catalogue.DeletePackage, Catalogue.AddChannel,
      Catalogue.UpdateChannel, Catalogue.AddFloor, Catalogue.AddGroup, Catalogue.UpdateGroup, Catalogue.DeleteApp,
      Catalogue.DeleteChannel;
    if r.DeleteApp? || r.DeleteChannel? || r.DeletePackage? {
      LossUnmarksIff(t, r, c, p);
    } else if !r.RemoveFloor? {
      OtherRequestsKeepFloors(t, r);
      hide Apply;
    }
  }

  lemma LossUnmarksIff(t: Tables, r: Request, c: string, p: string)
    requires Consistent(t) && Pair(c, p) in t.floors && c in t.channels
    requires r.DeleteApp? || r.DeleteChannel? || r.DeletePackage?
    ensures Pair(c, p) !in Apply(t, r).floors <==> r == DeleteChannel(c) || r == DeleteApp(t.channels[c].app)
  {
    hide Consistent, Catalogue.DeletePackage, Catalogue.DeleteApp, Catalogue.DeleteChannel;
    if r.DeleteApp? {
      AppLossUnmarks(t, r.id, c, p);
    } else if r.DeletePackage? {
      PackageLossKeepsFloors(t, r.id);
    } else {
      ChannelLossUnmarks(t, r.id, c, p);
    }
  }

  lemma ChannelLossUnmarks(t: Tables, id: string, c: string, p: string)
    requires Pair(c, p) in t.floors && c in t.channels
    ensures Pair(c, p) !in Catalogue.DeleteChannel(t, id).tables.floors <==> id == c
  {
  }

  /** A floor is not deleted, so deleting a package unmarks nothing. */
  lemma PackageLossKeepsFloors(t: Tables, id: string)
    ensures Catalogue.DeletePackage(t, id).tables.floors.Keys == t.floors.Keys
  {
  }

  lemma OtherRequestsKeepFloors(t: Tables, r: Request)
    requires !r.DeletePackage? && !r.DeleteApp? && !r.DeleteChannel? && !r.RemoveFloor?
    ensures t.floors.Keys <= Apply(t, r).floors.Keys
  {
    hide Taken, ChannelNameTaken, GroupNameTaken, AppNameTaken, UpdatePackageErrors, PackageRefusal, ChannelRefusal,
      NoRepeats, PairsOf, GroupColumnsOk;
  }

  lemma {:induction false} AppLossUnmarks(t: Tables, id: string, c: string, p: string)
    requires Consistent(t) && Pair(c, p) in t.floors
    ensures Pair(c, p) !in Catalogue.DeleteApp(t, id).tables.floors <==> c in t.channels && id == t.channels[c].app
  {
    assert Fits(t, c, p);
    assert ChannelOk(t, c);
    hide Taken;
  }
}
