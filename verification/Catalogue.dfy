/**
 The catalogue an administrator maintains: applications with their packages, channels and groups, the
 floors of a channel and the channels a package blacklists.

 `Tables` holds the rows and the functions say what one admin request does to them; class `Admin` of
 `AdminService` performs the requests statement by statement. The database gives each new row its id,
 rejects rows that break a key or refer to a missing row, and removes or clears what refers to a
 deleted row.
 */
module Catalogue {
  import opened Versions
  import opened Wrappers

  const LAST_ARCH := 3

  datatype AppRow = AppRow(team: string, name: string)

  datatype PackageRow = PackageRow(app: string, arch: nat, version: Version)

  datatype ChannelRow = ChannelRow(app: string, name: string, arch: nat, package: Option<string>)

  /** `zoneKnown` tells whether the group's time zone is one that can be loaded; intervals are stored as text. */
  datatype GroupRow = GroupRow(app: string, name: string, channel: Option<string>, track: string,
                               updatesEnabled: bool, officeHours: bool, zoneKnown: bool,
                               periodInterval: string, maxUpdates: int, updateTimeout: string)

  /** A pair of a channel and a package, in the floor table or in the blacklist table. */
  datatype Pair = Pair(channel: string, package: string)

  datatype Tables = Tables(apps: map<string, AppRow>, packages: map<string, PackageRow>,
                           channels: map<string, ChannelRow>, groups: map<string, GroupRow>,
                           floors: map<Pair, Option<string>>, blacklist: set<Pair>)

  datatype AdminError =
    | NotFound
    | NoRowsAffected
    | InvalidSemver
    | InvalidArch
    | ArchMismatch
    | InvalidPackage
    | InvalidChannel
    | InvalidApplicationOrGroup
    | BlacklistedChannel
    | BlacklistingChannel
    | BlacklistingFloor
    | PackageBlacklisted
    | PackageIsFloor
    | ExpectingValidTimezone
    | ConstraintViolation

  datatype Reply = Reply(tables: Tables, error: Option<AdminError>)

  function Refuse(t: Tables, error: AdminError): Reply {
    Reply(t, Some(error))
  }

  function Done(t: Tables): Reply {
    Reply(t, None)
  }

  // ----- packages -----

  predicate SameKey(a: PackageRow, b: PackageRow) {
    a.app == b.app && a.version == b.version && a.arch == b.arch
  }

  /** The unique key of packages: another row has the application, version and architecture of `row`. */
  predicate Taken(packages: map<string, PackageRow>, id: string, row: PackageRow) {
    exists p | p in packages :: p != id && SameKey(packages[p], row)
  }

  predicate NoRepeats(s: seq<string>) {
    forall i, j | 0 <= i < j < |s| :: s[i] != s[j]
  }

  function PairsOf(package: string, channels: seq<string>): set<Pair> {
    set c | c in channels :: Pair(c, package)
  }

  /** `addPackage`; `restOk` tells whether the other columns, the files and the action can be stored. */
  function AddPackage(t: Tables, id: string, app: string, arch: nat, version: Option<Version>, blacklist: seq<string>,
                      restOk: bool): Reply {
    if version.None? then Refuse(t, InvalidSemver)
    else if arch > LAST_ARCH then Refuse(t, InvalidArch)
    else if exists c | c in blacklist :: c in t.channels && t.channels[c].arch != arch then Refuse(t, ArchMismatch)
    else
      var row := PackageRow(app, arch, version.value);
      if id in t.packages || app !in t.apps || Taken(t.packages, id, row) then Refuse(t, ConstraintViolation)
      else if !NoRepeats(blacklist) || (exists c | c in blacklist :: c !in t.channels) || !restOk then
        Refuse(t, ConstraintViolation)
      else Done(t.(packages := t.packages[id := row], blacklist := t.blacklist + PairsOf(id, blacklist)))
  }

  /** Why a package may not newly blacklist a channel, if so. */
  function BlacklistRefusal(t: Tables, id: string, c: string): Option<AdminError> {
    if c !in t.channels then Some(NotFound)
    else if t.channels[c].package == Some(id) then Some(BlacklistingChannel)
    else if Pair(c, id) in t.floors then Some(BlacklistingFloor)
    else None
  }

  function NewlyRefused(t: Tables, id: string, blacklist: seq<string>): set<string> {
    set c | c in blacklist && Pair(c, id) !in t.blacklist && BlacklistRefusal(t, id, c).Some?
  }

  /** The errors `UpdatePackage` may report; which one depends on the order in which a map is visited. */
  function UpdatePackageErrors(t: Tables, id: string, version: Option<Version>, blacklist: seq<string>,
      restOk: bool): set<AdminError> {
    if version.None? then {InvalidSemver}
    else if id !in t.packages then {NoRowsAffected}
    else if Taken(t.packages, id, t.packages[id].(version := version.value)) then {ConstraintViolation}
    else if NewlyRefused(t, id, blacklist) != {} then
      set c | c in NewlyRefused(t, id, blacklist) :: BlacklistRefusal(t, id, c).value
    else if !restOk then {ConstraintViolation}
    else {}
  }

  function UpdatePackage(t: Tables, id: string, version: Option<Version>, blacklist: seq<string>,
      restOk: bool): Tables {
    if UpdatePackageErrors(t, id, version, blacklist, restOk) != {} then t
    else t.(packages := t.packages[id := t.packages[id].(version := version.value)],
            blacklist := (set x | x in t.blacklist && x.package != id) + PairsOf(id, blacklist))
  }

  predicate IsFloor(t: Tables, package: string) {
    exists x | x in t.floors :: x.package == package
  }

  /** Delete packages with what refers to them: floors and blacklist rows go, channels are cleared. */
  function WithoutPackages(t: Tables, gone: set<string>): Tables {
    t.(packages := t.packages - gone,
       channels := map c | c in t.channels :: var row := t.channels[c];
                       if row.package.Some? && row.package.value in gone then row.(package := None) else row,
       floors := map x | x in t.floors && x.package !in gone :: t.floors[x],
       blacklist := set x | x in t.blacklist && x.package !in gone)
  }

  function DeletePackage(t: Tables, id: string): Reply {
    if id !in t.packages then Refuse(t, NoRowsAffected)
    else if IsFloor(t, id) then Refuse(t, PackageIsFloor)
    else Done(WithoutPackages(t, {id}))
  }

  // ----- channels -----

  function PackageRefusal(t: Tables, package: string, channel: string, app: string, arch: nat): Option<AdminError> {
    if package !in t.packages then Some(NotFound)
    else if t.packages[package].app != app then Some(InvalidPackage)
    else if t.packages[package].arch != arch then Some(ArchMismatch)
    else if Pair(channel, package) in t.blacklist then Some(BlacklistedChannel)
    else None
  }

  /** The unique key of channels. */
  predicate ChannelNameTaken(t: Tables, id: string, row: ChannelRow) {
    exists c | c in t.channels ::
      c != id && t.channels[c].app == row.app && t.channels[c].name == row.name && t.channels[c].arch == row.arch
  }

  /** `AddChannel`; `given` is the id the caller sent along, `id` the one the database assigns. */
  function AddChannel(t: Tables, id: string, given: string, row: ChannelRow): Reply {
    if row.arch > LAST_ARCH then Refuse(t, InvalidArch)
    else if row.package.Some? && PackageRefusal(t, row.package.value, given, row.app, row.arch).Some? then
      Reply(t, PackageRefusal(t, row.package.value, given, row.app, row.arch))
    else if id in t.channels || row.app !in t.apps || row.name == "" || ChannelNameTaken(t, id, row) then
      Refuse(t, ConstraintViolation)
    else Done(t.(channels := t.channels[id := row]))
  }

  function UpdateChannel(t: Tables, id: string, name: string, package: Option<string>): Reply {
    if id !in t.channels then Refuse(t, NotFound)
    else
      var before := t.channels[id];
      if package.Some? && PackageRefusal(t, package.value, id, before.app, before.arch).Some? then
        Reply(t, PackageRefusal(t, package.value, id, before.app, before.arch))
      else
        var row := before.(name := name, package := package);
        if name == "" || ChannelNameTaken(t, id, row) then Refuse(t, ConstraintViolation)
        else Done(t.(channels := t.channels[id := row]))
  }

  /** Delete channels with what refers to them: floors and blacklist rows go, groups are cleared. */
  function WithoutChannels(t: Tables, gone: set<string>): Tables {
    t.(channels := t.channels - gone,
       groups := map g | g in t.groups :: var row := t.groups[g];
                     if row.channel.Some? && row.channel.value in gone then row.(channel := None) else row,
       floors := map x | x in t.floors && x.channel !in gone :: t.floors[x],
       blacklist := set x | x in t.blacklist && x.channel !in gone)
  }

  function DeleteChannel(t: Tables, id: string): Reply {
    if id !in t.channels then Refuse(t, NoRowsAffected) else Done(WithoutChannels(t, {id}))
  }

  // ----- floors -----

  function AddFloor(t: Tables, channel: string, package: string, reason: Option<string>): Reply {
    if channel !in t.channels || package !in t.packages then Refuse(t, InvalidPackage)
    else if t.channels[channel].arch != t.packages[package].arch then Refuse(t, ArchMismatch)
    else if t.channels[channel].app != t.packages[package].app then Refuse(t, InvalidApplicationOrGroup)
    else if Pair(channel, package) in t.blacklist then Refuse(t, PackageBlacklisted)
    else Done(t.(floors := t.floors[Pair(channel, package) := reason]))
  }

  function RemoveFloor(t: Tables, channel: string, package: string): Reply {
    if Pair(channel, package) !in t.floors then Refuse(t, NoRowsAffected)
    else Done(t.(floors := t.floors - {Pair(channel, package)}))
  }

  // ----- groups and applications -----

  function ChannelRefusal(t: Tables, channel: string, app: string): Option<AdminError> {
    if channel !in t.channels then Some(NotFound)
    else if t.channels[channel].app != app then Some(InvalidChannel)
    else None
  }

  /** The unique key of groups. */
  predicate GroupNameTaken(t: Tables, id: string, row: GroupRow) {
    exists g | g in t.groups :: g != id && t.groups[g].app == row.app && t.groups[g].name == row.name
  }

  /** The checks on the columns of a group. */
  predicate GroupColumnsOk(row: GroupRow) {
    row.name != "" && row.periodInterval != "" && row.maxUpdates > 0 && row.updateTimeout != ""
  }

  function OrId(track: string, id: string): string {
    if track == "" then id else track
  }

  function AddGroup(t: Tables, id: string, row: GroupRow): Reply {
    if row.officeHours && !row.zoneKnown then Refuse(t, ExpectingValidTimezone)
    else if row.channel.Some? && ChannelRefusal(t, row.channel.value, row.app).Some? then
      Reply(t, ChannelRefusal(t, row.channel.value, row.app))
    else if id in t.groups || row.app !in t.apps || !GroupColumnsOk(row) || GroupNameTaken(t, id, row) then
      Refuse(t, ConstraintViolation)
    else Done(t.(groups := t.groups[id := row.(track := OrId(row.track, id))]))
  }

  function UpdateGroup(t: Tables, id: string, given: GroupRow): Reply {
    if given.officeHours && !given.zoneKnown then Refuse(t, ExpectingValidTimezone)
    else if id !in t.groups then Refuse(t, NotFound)
    else
      var app := t.groups[id].app;
      if given.channel.Some? && ChannelRefusal(t, given.channel.value, app).Some? then
        Reply(t, ChannelRefusal(t, given.channel.value, app))
      else
        var row := given.(app := app, track := OrId(given.track, id));
        if !GroupColumnsOk(row) || GroupNameTaken(t, id, row) then Refuse(t, ConstraintViolation)
        else Done(t.(groups := t.groups[id := row]))
  }

  function DeleteGroup(t: Tables, id: string): Reply {
    if id !in t.groups then Refuse(t, NoRowsAffected) else Done(t.(groups := t.groups - {id}))
  }

  /** The unique key of applications. */
  predicate AppNameTaken(t: Tables, id: string, row: AppRow) {
    exists a | a in t.apps :: a != id && t.apps[a] == row
  }

  /** `AddApp`; the database rejects an empty name and one that the team already uses. */
  function AddApp(t: Tables, id: string, row: AppRow): Reply {
    if id in t.apps || row.name == "" || AppNameTaken(t, id, row) then Refuse(t, ConstraintViolation)
    else Done(t.(apps := t.apps[id := row]))
  }

  /** `UpdateApp`. */
  function UpdateApp(t: Tables, id: string, name: string): Reply {
    if id !in t.apps then Refuse(t, NoRowsAffected)
    else
      var row := t.apps[id].(name := name);
      if name == "" || AppNameTaken(t, id, row) then Refuse(t, ConstraintViolation)
      else Done(t.(apps := t.apps[id := row]))
  }

  function PackagesOf(t: Tables, app: string): set<string> {
    set p | p in t.packages && t.packages[p].app == app
  }

  function ChannelsOf(t: Tables, app: string): set<string> {
    set c | c in t.channels && t.channels[c].app == app
  }

  function GroupsOf(t: Tables, app: string): set<string> {
    set g | g in t.groups && t.groups[g].app == app
  }

  function DeleteApp(t: Tables, id: string): Reply {
    if id !in t.apps then Refuse(t, NoRowsAffected)
    else
      var t1 := WithoutPackages(t, PackagesOf(t, id));
      var t2 := WithoutChannels(t1, ChannelsOf(t, id));
      Done(t2.(groups := t2.groups - GroupsOf(t, id), apps := t.apps - {id}))
  }
}
