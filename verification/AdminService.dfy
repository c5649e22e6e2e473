/** The admin service, performing each request statement by statement on its tables. */
module AdminService {
  import opened Versions
  import opened Wrappers
  import opened Catalogue

  class Admin {
    var apps: map<string, AppRow>
    var packages: map<string, PackageRow>
    var channels: map<string, ChannelRow>
    var groups: map<string, GroupRow>
    var floors: map<Pair, Option<string>>
    var blacklist: set<Pair>

    function State(): Tables
      reads this
    {
      Tables(apps, packages, channels, groups, floors, blacklist)
    }

    constructor ()
      ensures State() == Tables(map[], map[], map[], map[], map[], {})
    {
      apps, packages, channels, groups, floors, blacklist := map[], map[], map[], map[], map[], {};
    }

    /** `AddPackage`. The transaction's own writes are kept aside until it commits. */
    method AddPackage(id: string, app: string, arch: nat, version: Option<Version>, channelsBlacklist: seq<string>,
        restOk: bool)
      returns (error: Option<AdminError>)
      modifies this`packages, this`blacklist
      ensures Reply(State(), error)
              == Catalogue.AddPackage(old(State()), id, app, arch, version, channelsBlacklist, restOk)
    {
      if version.None? {
        return Some(InvalidSemver);
      }
      if arch > LAST_ARCH {
        return Some(InvalidArch);
      }
      if exists c | c in channelsBlacklist :: c in channels && channels[c].arch != arch {
        return Some(ArchMismatch);
      }
      var row := PackageRow(app, arch, version.value);
      if id in packages || app !in apps || Taken(packages, id, row) {
        return Some(ConstraintViolation);
      }
      var inserted: set<Pair> := {};
      for k := 0 to |channelsBlacklist|
        invariant inserted == PairsOf(id, channelsBlacklist[..k])
        invariant NoRepeats(channelsBlacklist[..k])
        invariant forall c | c in channelsBlacklist[..k] :: c in channels
      {
        var channelID := channelsBlacklist[k];
        if Pair(channelID, id) in inserted || channelID !in channels {
          assert channelsBlacklist[k] in channelsBlacklist;
          return Some(ConstraintViolation);
        }
        inserted := inserted + {Pair(channelID, id)};
      }
      assert channelsBlacklist[..|channelsBlacklist|] == channelsBlacklist;
      if !restOk {
        return Some(ConstraintViolation);
      }
      packages, blacklist := packages[id := row], blacklist + inserted;
      return None;
    }

    /** The checks on a channel that a package newly blacklists. */
    method CheckNewlyBlacklisted(id: string, channelID: string) returns (error: Option<AdminError>)
      ensures error == BlacklistRefusal(State(), id, channelID)
    {
      if channelID !in channels {
        return Some(NotFound);
      }
      if channels[channelID].package == Some(id) {
        return Some(BlacklistingChannel);
      }
      if Pair(channelID, id) in floors {
        return Some(BlacklistingFloor);
      }
      return None;
    }

    /** `updatePackageBlacklistedChannels`: the blacklist rows after the two loops, or an error. */
    method UpdatedBlacklist(id: string, channelsBlacklist: seq<string>)
      returns (rows: set<Pair>, error: Option<AdminError>)
      ensures error.None? <==> NewlyRefused(State(), id, channelsBlacklist) == {}
      ensures error.Some? ==> exists c | c in NewlyRefused(State(), id, channelsBlacklist) ::
                                BlacklistRefusal(State(), id, c) == error
      ensures error.None? ==> rows == (set x | x in blacklist && x.package != id) + PairsOf(id, channelsBlacklist)
    {
      var newBlacklist := set c | c in channelsBlacklist;
      var oldBlacklist := set x | x in blacklist && x.package == id :: x.channel;
      OldBlacklist(blacklist, id, oldBlacklist);
      rows := blacklist;
      var todo := newBlacklist;
      hide NewlyRefused, BlacklistRefusal, AfterAdding, AfterRemoving;
      StartAdding(blacklist, id);
      while todo != {}
        invariant todo <= newBlacklist
        invariant AllChecked(State(), id, newBlacklist - todo - oldBlacklist)
        invariant AfterAdding(rows, blacklist, id, newBlacklist - todo)
        decreases |todo|
      {
        var channelID :| channelID in todo;
        if channelID !in oldBlacklist {
          error := CheckNewlyBlacklisted(id, channelID);
          if error.Some? {
            RefusedIsNew(State(), id, channelsBlacklist, channelID);
            return rows, error;
          }
        }
        OneMoreAdded(rows, blacklist, id, newBlacklist, todo, channelID);
        todo := todo - {channelID};
        if channelID in oldBlacklist {
          continue;
        }
        rows := rows + {Pair(channelID, id)};
      }
      NoneRefused(State(), id, channelsBlacklist, oldBlacklist);
      StartRemoving(rows, blacklist, id, newBlacklist, oldBlacklist);
      todo := oldBlacklist;
      while todo != {}
        invariant todo <= oldBlacklist
        invariant AfterRemoving(rows, blacklist, id, newBlacklist, todo)
        decreases |todo|
      {
        var channelID :| channelID in todo;
        OneMoreRemoved(rows, blacklist, id, newBlacklist, todo, channelID);
        todo := todo - {channelID};
        if channelID in newBlacklist {
          continue;
        }
        rows := rows - {Pair(channelID, id)};
      }
      Reconciled(rows, blacklist, id, channelsBlacklist);
      return rows, None;
    }

    /** `UpdatePackage`; a failure rolls the transaction back. */
    method UpdatePackage(id: string, version: Option<Version>, channelsBlacklist: seq<string>, restOk: bool)
      returns (error: Option<AdminError>)
      modifies this`packages, this`blacklist
      ensures State() == Catalogue.UpdatePackage(old(State()), id, version, channelsBlacklist, restOk)
      ensures var errors := UpdatePackageErrors(old(State()), id, version, channelsBlacklist, restOk);
              if error.None? then errors == {} else error.value in errors
    {
      if version.None? {
        return Some(InvalidSemver);
      }
      if id !in packages {
        return Some(NoRowsAffected);
      }
      var updated := packages[id].(version := version.value);
      if Taken(packages, id, updated) {
        return Some(ConstraintViolation);
      }
      var rows, refused := UpdatedBlacklist(id, channelsBlacklist);
      if refused.Some? {
        ghost var c :| c in NewlyRefused(State(), id, channelsBlacklist) && BlacklistRefusal(State(), id, c) == refused;
        assert BlacklistRefusal(State(), id, c).value
            in UpdatePackageErrors(State(), id, version, channelsBlacklist, restOk);
        return refused;
      }
      if !restOk {
        return Some(ConstraintViolation);
      }
      packages, blacklist := packages[id := updated], rows;
      return None;
    }

    /** `DeletePackage`: one conditional statement, then a look at why it affected nothing. */
    method DeletePackage(id: string) returns (error: Option<AdminError>)
      modifies this`packages, this`channels, this`floors, this`blacklist
      ensures Reply(State(), error) == Catalogue.DeletePackage(old(State()), id)
    {
      if id in packages && !IsFloor(State(), id) {
        var t := WithoutPackages(State(), {id});
        packages, channels, floors, blacklist := t.packages, t.channels, t.floors, t.blacklist;
        return None;
      }
      if id !in packages {
        return Some(NoRowsAffected);
      }
      return Some(PackageIsFloor);
    }

    /** `validatePackage`. */
    method ValidatePackage(package: string, channel: string, app: string, arch: nat) returns (error: Option<AdminError>)
      ensures error == PackageRefusal(State(), package, channel, app, arch)
    {
      if package !in packages {
        return Some(NotFound);
      }
      if packages[package].app != app {
        return Some(InvalidPackage);
      }
      if packages[package].arch != arch {
        return Some(ArchMismatch);
      }
      if Pair(channel, package) in blacklist {
        return Some(BlacklistedChannel);
      }
      return None;
    }

    method AddChannel(id: string, given: string, row: ChannelRow) returns (error: Option<AdminError>)
      modifies this`channels
      ensures Reply(State(), error) == Catalogue.AddChannel(old(State()), id, given, row)
    {
      if row.arch > LAST_ARCH {
        return Some(InvalidArch);
      }
      if row.package.Some? {
        error := ValidatePackage(row.package.value, given, row.app, row.arch);
        if error.Some? {
          return error;
        }
      }
      if id in channels || row.app !in apps || row.name == "" || ChannelNameTaken(State(), id, row) {
        return Some(ConstraintViolation);
      }
      channels := channels[id := row];
      return None;
    }

    method UpdateChannel(id: string, name: string, package: Option<string>) returns (error: Option<AdminError>)
      modifies this`channels
      ensures Reply(State(), error) == Catalogue.UpdateChannel(old(State()), id, name, package)
    {
      if id !in channels {
        return Some(NotFound);
      }
      var before := channels[id];
      if package.Some? {
        error := ValidatePackage(package.value, id, before.app, before.arch);
        if error.Some? {
          return error;
        }
      }
      var row := before.(name := name, package := package);
      if name == "" || ChannelNameTaken(State(), id, row) {
        return Some(ConstraintViolation);
      }
      channels := channels[id := row];
      return None;
    }

    method DeleteChannel(id: string) returns (error: Option<AdminError>)
      modifies this`channels, this`groups, this`floors, this`blacklist
      ensures Reply(State(), error) == Catalogue.DeleteChannel(old(State()), id)
    {
      if id !in channels {
        return Some(NoRowsAffected);
      }
      var t := WithoutChannels(State(), {id});
      channels, groups, floors, blacklist := t.channels, t.groups, t.floors, t.blacklist;
      return None;
    }

    /** `AddChannelPackageFloor`: marking a floor again only replaces its reason. */
    method AddChannelPackageFloor(channel: string, package: string, reason: Option<string>)
      returns (error: Option<AdminError>)
      modifies this`floors
      ensures Reply(State(), error) == AddFloor(old(State()), channel, package, reason)
    {
      if channel !in channels || package !in packages {
        return Some(InvalidPackage);
      }
      if channels[channel].arch != packages[package].arch {
        return Some(ArchMismatch);
      }
      if channels[channel].app != packages[package].app {
        return Some(InvalidApplicationOrGroup);
      }
      if Pair(channel, package) in blacklist {
        return Some(PackageBlacklisted);
      }
      floors := floors[Pair(channel, package) := reason];
      return None;
    }

    method RemoveChannelPackageFloor(channel: string, package: string) returns (error: Option<AdminError>)
      modifies this`floors
      ensures Reply(State(), error) == RemoveFloor(old(State()), channel, package)
    {
      if Pair(channel, package) !in floors {
        return Some(NoRowsAffected);
      }
      floors := floors - {Pair(channel, package)};
      return None;
    }

    /** `validateChannel`. */
    method ValidateChannel(channel: string, app: string) returns (error: Option<AdminError>)
      ensures error == ChannelRefusal(State(), channel, app)
    {
      if channel !in channels {
        return Some(NotFound);
      }
      if channels[channel].app != app {
        return Some(InvalidChannel);
      }
      return None;
    }

    method AddGroup(id: string, row: GroupRow) returns (error: Option<AdminError>)
      modifies this`groups
      ensures Reply(State(), error) == Catalogue.AddGroup(old(State()), id, row)
    {
      if row.officeHours && !row.zoneKnown {
        return Some(ExpectingValidTimezone);
      }
      if row.channel.Some? {
        error := ValidateChannel(row.channel.value, row.app);
        if error.Some? {
          return error;
        }
      }
      var track := row.track;
      if track == "" {
        track := id;
      }
      if id in groups || row.app !in apps || !GroupColumnsOk(row) || GroupNameTaken(State(), id, row) {
        return Some(ConstraintViolation);
      }
      groups := groups[id := row.(track := track)];
      return None;
    }

    method UpdateGroup(id: string, given: GroupRow) returns (error: Option<AdminError>)
      modifies this`groups
      ensures Reply(State(), error) == Catalogue.UpdateGroup(old(State()), id, given)
    {
      if given.officeHours && !given.zoneKnown {
        return Some(ExpectingValidTimezone);
      }
      if id !in groups {
        return Some(NotFound);
      }
      var groupBeforeUpdate := groups[id];
      if given.channel.Some? {
        error := ValidateChannel(given.channel.value, groupBeforeUpdate.app);
        if error.Some? {
          return error;
        }
      }
      var row := given.(app := groupBeforeUpdate.app);
      if row.track == "" {
        row := row.(track := id);
      }
      if !GroupColumnsOk(row) || GroupNameTaken(State(), id, row) {
        return Some(ConstraintViolation);
      }
      groups := groups[id := row];
      return None;
    }

    method AddApp(id: string, row: AppRow) returns (error: Option<AdminError>)
      modifies this`apps
      ensures Reply(State(), error) == Catalogue.AddApp(old(State()), id, row)
    {
      if id in apps || row.name == "" || AppNameTaken(State(), id, row) {
        return Some(ConstraintViolation);
      }
      apps := apps[id := row];
      return None;
    }

    method UpdateApp(id: string, name: string) returns (error: Option<AdminError>)
      modifies this`apps
      ensures Reply(State(), error) == Catalogue.UpdateApp(old(State()), id, name)
    {
      if id !in apps {
        return Some(NoRowsAffected);
      }
      var row := apps[id].(name := name);
      if name == "" || AppNameTaken(State(), id, row) {
        return Some(ConstraintViolation);
      }
      apps := apps[id := row];
      return None;
    }

    method DeleteGroup(id: string) returns (error: Option<AdminError>)
      modifies this`groups
      ensures Reply(State(), error) == Catalogue.DeleteGroup(old(State()), id)
    {
      if id !in groups {
        return Some(NoRowsAffected);
      }
      groups := groups - {id};
      return None;
    }

    /** `DeleteApp`: the database removes the application's packages, channels and groups with it. */
    method DeleteApp(id: string) returns (error: Option<AdminError>)
      modifies this
      ensures Reply(State(), error) == Catalogue.DeleteApp(old(State()), id)
    {
      if id !in apps {
        return Some(NoRowsAffected);
      }
      var t := WithoutPackages(State(), PackagesOf(State(), id));
      t := WithoutChannels(t, ChannelsOf(State(), id));
      groups := t.groups - GroupsOf(State(), id);
      apps, packages, channels, floors, blacklist := apps - {id}, t.packages, t.channels, t.floors, t.blacklist;
      return None;
    }
  }

  // ----- the two loops over a package's blacklist -----

  /** No channel of `checked` is a reason to refuse. */
  predicate AllChecked(t: Tables, id: string, checked: set<string>) {
    forall c | c in checked :: BlacklistRefusal(t, id, c).None?
  }

  /** The rows when the channels of `done` are added. */
  ghost predicate AfterAdding(rows: set<Pair>, blacklist: set<Pair>, id: string, done: set<string>) {
    forall x :: x in rows <==> x in blacklist || (x.package == id && x.channel in done)
  }

  /** The rows when of the channels that are not requested only those of `left` remain. */
  ghost predicate AfterRemoving(rows: set<Pair>, blacklist: set<Pair>, id: string, requested: set<string>,
      left: set<string>) {
    forall x :: x in rows <==>
      if x.package == id then x.channel in requested || (x in blacklist && x.channel in left) else x in blacklist
  }

  lemma OldBlacklist(blacklist: set<Pair>, id: string, channels: set<string>)
    requires channels == set x | x in blacklist && x.package == id :: x.channel
    ensures forall c :: c in channels <==> Pair(c, id) in blacklist
  {
  }

  lemma StartAdding(blacklist: set<Pair>, id: string)
    ensures AfterAdding(blacklist, blacklist, id, {})
  {
  }

  lemma OneMoreAdded(rows: set<Pair>, blacklist: set<Pair>, id: string, requested: set<string>, todo: set<string>,
      c: string)
    requires c in todo && todo <= requested && AfterAdding(rows, blacklist, id, requested - todo)
    ensures requested - (todo - {c}) == (requested - todo) + {c}
    ensures AfterAdding(rows + {Pair(c, id)}, blacklist, id, requested - (todo - {c}))
    ensures Pair(c, id) in blacklist ==> AfterAdding(rows, blacklist, id, requested - (todo - {c}))
  {
  }

  lemma RefusedIsNew(t: Tables, id: string, requested: seq<string>, c: string)
    requires c in requested && Pair(c, id) !in t.blacklist && BlacklistRefusal(t, id, c).Some?
    ensures c in NewlyRefused(t, id, requested)
  {
  }

  lemma NoneRefused(t: Tables, id: string, requested: seq<string>, known: set<string>)
    requires forall c :: c in known <==> Pair(c, id) in t.blacklist
    requires AllChecked(t, id, (set c | c in requested) - {} - known)
    ensures NewlyRefused(t, id, requested) == {}
  {
  }

  lemma StartRemoving(rows: set<Pair>, blacklist: set<Pair>, id: string, requested: set<string>, known: set<string>)
    requires AfterAdding(rows, blacklist, id, requested - {})
    requires forall c :: c in known <==> Pair(c, id) in blacklist
    ensures AfterRemoving(rows, blacklist, id, requested, known)
  {
  }

  lemma OneMoreRemoved(rows: set<Pair>, blacklist: set<Pair>, id: string, requested: set<string>, todo: set<string>,
      c: string)
    requires c in todo && AfterRemoving(rows, blacklist, id, requested, todo)
    ensures c in requested ==> AfterRemoving(rows, blacklist, id, requested, todo - {c})
    ensures c !in requested ==> AfterRemoving(rows - {Pair(c, id)}, blacklist, id, requested, todo - {c})
  {
  }

  lemma Reconciled(rows: set<Pair>, blacklist: set<Pair>, id: string, requested: seq<string>)
    requires AfterRemoving(rows, blacklist, id, set c | c in requested, {})
    ensures rows == (set x | x in blacklist && x.package != id) + PairsOf(id, requested)
  {
  }
}
