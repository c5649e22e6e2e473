/**
 From the administrator to the client: the package a channel points at is the one published last, it is what the
 update service loads, and it is where clients are led.
 */
module Publishing {
  import opened Versions
  import opened Wrappers
  import opened Catalogue
  import opened CatalogueRuns
  import opened CatalogueEffects
  import opened ChannelViews

  /** The package that a request publishes through channel `c`, if it is a request about that channel's package. */
  function Publishes(t: Tables, r: Request, c: string): Option<Option<string>> {
    match r
    case AddChannel(id, given, row) =>
      if id == c && Catalogue.AddChannel(t, id, given, row).error.None? then Some(row.package) else None
    case UpdateChannel(id, name, package) =>
      if id == c && Catalogue.UpdateChannel(t, id, name, package).error.None? then Some(package) else None
    case _ => None
  }

  /** The package published last through a channel, unless it was deleted since. */
  function LastPublished(requests: seq<Request>, c: string): Option<string>
    decreases |requests|
  {
    if requests == [] then None
    else
      var n := |requests| - 1;
      var published := Publishes(Exec(requests[..n]), requests[n], c);
      if published.Some? then published.value
      else
        var before := LastPublished(requests[..n], c);
        if before.Some? && before.value !in Exec(requests).packages then None else before
  }

  /** A request leaves a channel's package alone unless it publishes another one or takes the package away. */
  lemma {:induction false} PackageAfter(t: Tables, r: Request, c: string)
    requires Sound(t) && c in Apply(t, r).channels
    ensures var package := Apply(t, r).channels[c].package;
            if Publishes(t, r, c).Some? then package == Publishes(t, r, c).value
            else
              && c in t.channels
              && package == (if t.channels[c].package.Some? && t.channels[c].package.value !in Apply(t, r).packages
                             then None else t.channels[c].package)
  {
    hide Sound;
    PackageIsThere(t, c);
    if r.AddChannel? {
      ChannelAdded(t, r, c);
      hide Apply, Publishes;
    } else if r.UpdateChannel? {
      ChannelUpdated(t, r, c);
      hide Apply, Publishes;
    } else if r.DeletePackage? || r.DeleteChannel? || r.DeleteApp? {
      LossLeaves(t, r, c);
      hide Apply;
    } else {
      OthersKeepChannels(t, r);
      hide Apply;
    }
  }

  lemma PackageIsThere(t: Tables, c: string)
    requires Sound(t)
    ensures c in t.channels && t.channels[c].package.Some? ==> t.channels[c].package.value in t.packages
  {
    assert c in t.channels ==> ChannelOk(t, c);
  }

  lemma {:induction false} ChannelAdded(t: Tables, r: Request, c: string)
    requires Sound(t) && r.AddChannel? && c in Apply(t, r).channels
    ensures Apply(t, r).packages == t.packages
    ensures Publishes(t, r, c).None? ==> c in t.channels && Apply(t, r).channels[c] == t.channels[c]
    ensures Publishes(t, r, c).Some? ==> Apply(t, r).channels[c].package == Publishes(t, r, c).value
  {
    hide Sound;
    AddChannelAcceptedIff(t, r.id, r.given, r.channel);
    hide Catalogue.AddChannel;
  }

  lemma {:induction false} ChannelUpdated(t: Tables, r: Request, c: string)
    requires Sound(t) && r.UpdateChannel? && c in Apply(t, r).channels
    ensures Apply(t, r).packages == t.packages
    ensures Publishes(t, r, c).None? ==> c in t.channels && Apply(t, r).channels[c] == t.channels[c]
    ensures Publishes(t, r, c).Some? ==> Apply(t, r).channels[c].package == Publishes(t, r, c).value
  {
    hide Sound;
    UpdateChannelAcceptedIff(t, r.id, r.name, r.package);
    hide Catalogue.UpdateChannel;
  }

  lemma {:induction false} LossLeaves(t: Tables, r: Request, c: string)
    requires Sound(t) && c in Apply(t, r).channels && (r.DeletePackage? || r.DeleteChannel? || r.DeleteApp?)
    ensures c in t.channels && (t.channels[c].package.Some? ==> t.channels[c].package.value in t.packages)
    ensures Apply(t, r).channels[c].package
            == if t.channels[c].package.Some? && t.channels[c].package.value !in Apply(t, r).packages
               then None else t.channels[c].package
  {
    hide Sound, Left, Catalogue.DeletePackage, Catalogue.DeleteChannel, Catalogue.DeleteApp;
    PackageIsThere(t, c);
    var t' := Apply(t, r);
    if t' != t {
      if r.DeletePackage? {
        DeletePackageTakes(t, r.id);
        LeftChannel(t, t', {r.id}, {}, {}, c);
      } else if r.DeleteChannel? {
        DeleteChannelTakes(t, r.id);
        LeftChannel(t, t', {}, {r.id}, {}, c);
      } else {
        DeleteAppTakes(t, r.id);
        var packages := set p | p in t.packages && t.packages[p].app == r.id;
        var channels := set x | x in t.channels && t.channels[x].app == r.id;
        var groups := set g | g in t.groups && t.groups[g].app == r.id;
        LeftChannel(t, t', packages, channels, groups, c);
      }
    }
  }

  lemma LeftChannel(t: Tables, t': Tables, packages: set<string>, channels: set<string>, groups: set<string>, c: string)
    requires Left(t, t', packages, channels, groups) && c in t'.channels
    ensures c in t.channels
    ensures var package := t.channels[c].package;
            package.Some? && package.value in t.packages ==>
              t'.channels[c].package == if package.value in t'.packages then package else None
    ensures t.channels[c].package.None? ==> t'.channels[c].package.None?
  {
  }

  lemma OthersKeepChannels(t: Tables, r: Request)
    requires !r.AddChannel? && !r.UpdateChannel? && !r.DeletePackage? && !r.DeleteChannel? && !r.DeleteApp?
    ensures Apply(t, r).channels == t.channels && t.packages.Keys <= Apply(t, r).packages.Keys
  {
    hide Taken, GroupNameTaken, AppNameTaken, UpdatePackageErrors, ChannelRefusal, NoRepeats, PairsOf, GroupColumnsOk;
  }

  /** Over every sequence of admin requests, a channel points at the package that was published last through it. */
  lemma {:induction false} PackageIsLastPublished(requests: seq<Request>, c: string)
    requires c in Exec(requests).channels
    ensures Exec(requests).channels[c].package == LastPublished(requests, c)
    decreases |requests|
  {
    hide Apply, Publishes;
    if requests != [] {
      var n := |requests| - 1;
      RunsKeepSound(requests[..n]);
      hide Sound;
      PackageAfter(Exec(requests[..n]), requests[n], c);
      if Publishes(Exec(requests[..n]), requests[n], c).None? {
        PackageIsLastPublished(requests[..n], c);
      }
    }
  }

  /**
   The update service offers through a channel what was published last: every view of the channel has that package
   as its target, with the version on record, and no target when nothing is published.
   */
  lemma {:induction false} TargetIsLastPublished(requests: seq<Request>, c: string, ch: Floors.Channel,
      withBlacklists: bool)
    requires Shows(Exec(requests), c, ch, withBlacklists)
    ensures match LastPublished(requests, c)
            case None => ch.target.None?
            case Some(p) =>
              && ch.target.Some? && ch.target.value.id == p && p in Exec(requests).packages
              && ch.target.value.version == Exec(requests).packages[p].version
  {
    PackageIsLastPublished(requests, c);
    TargetShown(Exec(requests), c, ch, withBlacklists);
    hide Exec, LastPublished, Shows;
  }

  /** A successful update of a channel: what the update service offers through it from now on. */
  lemma {:induction false} UpdatedChannelShows(requests: seq<Request>, c: string, name: string,
      package: Option<string>, ch: Floors.Channel, withBlacklists: bool)
    requires Catalogue.UpdateChannel(Exec(requests), c, name, package).error.None?
    requires Shows(Exec(requests + [UpdateChannel(c, name, package)]), c, ch, withBlacklists)
    ensures match package
            case None => ch.target.None?
            case Some(p) =>
              && p in Exec(requests).packages && ch.target.Some? && ch.target.value.id == p
              && ch.target.value.version == Exec(requests).packages[p].version
    ensures forall p :: (exists i | 0 <= i < |ch.floors| :: ch.floors[i].id == p) <==>
              Pair(c, p) in Exec(requests).floors
  {
    var t, r := Exec(requests), UpdateChannel(c, name, package);
    RunsKeepSound(requests);
    ExecNext(requests, r, t);
    hide Exec, Sound, Shows;
    UpdateChannelAcceptedIff(t, c, name, package);
    hide Catalogue.UpdateChannel;
    var t' := WithChannel(t, c, t.channels[c].(name := name, package := package));
    assert Apply(t, r) == t';
    hide Apply;
    TargetShown(t', c, ch, withBlacklists);
    AllFloorsShown(t', c, ch, withBlacklists);
  }

  lemma {:induction false} AllFloorsShown(t: Tables, c: string, ch: Floors.Channel, withBlacklists: bool)
    requires Shows(t, c, ch, withBlacklists)
    ensures forall p :: (exists i | 0 <= i < |ch.floors| :: ch.floors[i].id == p) <==> Pair(c, p) in t.floors
  {
    hide Shows;
    forall p
      ensures (exists i | 0 <= i < |ch.floors| :: ch.floors[i].id == p) <==> Pair(c, p) in t.floors
    {
      FloorsShown(t, c, ch, withBlacklists, p);
    }
  }

  lemma TargetShown(t: Tables, c: string, ch: Floors.Channel, withBlacklists: bool)
    requires Shows(t, c, ch, withBlacklists)
    ensures c in t.channels
    ensures match t.channels[c].package
            case None => ch.target.None?
            case Some(p) =>
              && p in t.packages && ch.target.Some? && ch.target.value.id == p
              && ch.target.value.version == t.packages[p].version
  {
  }

  lemma {:induction false} FloorsShown(t: Tables, c: string, ch: Floors.Channel, withBlacklists: bool, p: string)
    requires Shows(t, c, ch, withBlacklists)
    ensures (exists i | 0 <= i < |ch.floors| :: ch.floors[i].id == p) <==> Pair(c, p) in t.floors
  {
    assert Pair(c, p).channel == c && Pair(c, p).package == p;
  }

  /**
   Publishing reaches the clients: when the version orders agree on the way ahead, the walk of a client behind the
   package published last ends at that package's version.
   */
  lemma {:induction false} PublishedIsReached(requests: seq<Request>, c: string, ch: Floors.Channel,
      withBlacklists: bool, p: string, v: Version)
    requires Shows(Exec(requests), c, ch, withBlacklists) && LastPublished(requests, c) == Some(p)
    ensures p in Exec(requests).packages && ch.target.Some?
    ensures var published := Exec(requests).packages[p].version;
            Less(v, published) && Floors.OrdersAgree(ch, v) ==>
              var walk := Floors.Walk(ch, v); walk != [] && walk[|walk| - 1] == published
  {
    TargetIsLastPublished(requests, c, ch, withBlacklists);
    ReachableChannelsAreWellFormed(requests, c, ch, withBlacklists);
    hide Exec, LastPublished, Shows, Floors.OrdersAgree, Floors.Walk;
    if Less(v, ch.target.value.version) {
      Floors.WalkVisitsEveryFloorIff(ch, v);
    }
  }

  /** Marking a floor shows. */
  lemma {:induction false} MarkedFloorShows(requests: seq<Request>, c: string, p: string, reason: Option<string>,
      ch: Floors.Channel, withBlacklists: bool)
    ensures Fits(Exec(requests), c, p)
            && Shows(Exec(requests + [AddFloor(c, p, reason)]), c, ch, withBlacklists) ==>
              exists i | 0 <= i < |ch.floors| ::
                ch.floors[i].id == p && ch.floors[i].version == Exec(requests).packages[p].version
  {
    var t, r := Exec(requests), AddFloor(c, p, reason);
    RunsKeepSound(requests);
    ExecNext(requests, r, t);
    hide Exec, Sound;
    AddFloorAcceptedIff(t, c, p, reason);
    hide Catalogue.AddFloor;
    if Fits(t, c, p) && Shows(Apply(t, r), c, ch, withBlacklists) {
      var t' := t.(floors := t.floors[Pair(c, p) := reason]);
      assert Apply(t, r) == t';
      hide Apply;
      FloorsShown(t', c, ch, withBlacklists, p);
    }
  }

  /** So does taking the mark away. */
  lemma {:induction false} UnmarkedFloorIsGone(requests: seq<Request>, c: string, p: string, ch: Floors.Channel,
      withBlacklists: bool)
    requires Shows(Exec(requests + [RemoveFloor(c, p)]), c, ch, withBlacklists)
    ensures forall i | 0 <= i < |ch.floors| :: ch.floors[i].id != p
  {
    var t, r := Exec(requests), RemoveFloor(c, p);
    RemoveFloorTakes(t, c, p);
    ExecNext(requests, r, t);
    hide Exec;
    FloorsShown(Apply(t, r), c, ch, withBlacklists, p);
    hide Shows, Catalogue.RemoveFloor;
  }
}
