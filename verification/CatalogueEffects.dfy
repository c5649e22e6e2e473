/**
 What each admin request does, and which requests are accepted: those whose rows fit the catalogue. A request that
 writes a row is accepted exactly when the row keeps the catalogue sound, and then the row is written and nothing
 else; a deletion takes away what refers to the deleted row and nothing else.
 */
module CatalogueEffects {
  import opened Versions
  import opened Wrappers
  import opened Catalogue
  import opened CatalogueRuns
  import opened Cloning

  /** Applications have names that are unique within their team. */
  ghost predicate AppNamesOk(t: Tables) {
    forall a | a in t.apps :: t.apps[a].name != "" && !AppNameTaken(t, a, t.apps[a])
  }

  /** Everything that is known of the rows of a reachable catalogue. */
  ghost predicate Sound(t: Tables) {
    Consistent(t) && NamesOk(t) && AppNamesOk(t)
  }

  lemma {:induction false} ApplyKeepsAppNamesOk(t: Tables, r: Request)
    requires AppNamesOk(t)
    ensures AppNamesOk(Apply(t, r))
  {
    var t' := Apply(t, r);
    hide AppNamesOk, AppNameTaken, Catalogue.DeleteApp;
    if r.AddApp? {
      if t' != t {
        WriteKeepsAppNamesOk(t, t', r.id);
      }
    } else if r.UpdateApp? {
      if t' != t {
        WriteKeepsAppNamesOk(t, t', r.id);
      }
    } else {
      if r.DeleteApp? {
        DeleteAppTakes(t, r.id);
      } else {
        OthersKeepApps(t, r);
      }
      hide Apply;
      FewerAppNamesOk(t, t');
    }
  }

  lemma {:induction false} WriteKeepsAppNamesOk(t: Tables, t': Tables, id: string)
    requires AppNamesOk(t) && id in t'.apps && t'.apps == t.apps[id := t'.apps[id]]
    requires t'.apps[id].name != "" && !AppNameTaken(t, id, t'.apps[id])
    ensures AppNamesOk(t')
  {
    forall a | a in t'.apps
      ensures t'.apps[a].name != "" && !AppNameTaken(t', a, t'.apps[a])
    {
      if a != id {
        assert !AppNameTaken(t, a, t.apps[a]);
      }
    }
  }

  lemma {:induction false} FewerAppNamesOk(t: Tables, t': Tables)
    requires AppNamesOk(t) && t'.apps.Keys <= t.apps.Keys && forall a | a in t'.apps :: t'.apps[a] == t.apps[a]
    ensures AppNamesOk(t')
  {
    forall a | a in t'.apps
      ensures !AppNameTaken(t', a, t'.apps[a])
    {
      assert !AppNameTaken(t, a, t.apps[a]);
    }
  }

  lemma OthersKeepApps(t: Tables, r: Request)
    requires !r.AddApp? && !r.UpdateApp? && !r.DeleteApp?
    ensures Apply(t, r).apps == t.apps
  {
    hide Taken, ChannelNameTaken, GroupNameTaken, UpdatePackageErrors, PackageRefusal, ChannelRefusal, NoRepeats,
      PairsOf, GroupColumnsOk, IsFloor;
  }

  /** Every sequence of admin requests leaves a sound catalogue. */
  lemma {:induction false} RunsKeepSound(requests: seq<Request>)
    ensures Sound(Exec(requests))
  {
    RunsKeepConsistent(requests);
    RunsKeepNamesOk(requests);
    AppNamesStayOk(requests);
  }

  lemma {:induction false} AppNamesStayOk(requests: seq<Request>)
    ensures AppNamesOk(Exec(requests))
  {
    hide Apply;
    if requests != [] {
      hide AppNamesOk;
      AppNamesStayOk(requests[..|requests| - 1]);
      ApplyKeepsAppNamesOk(Exec(requests[..|requests| - 1]), requests[|requests| - 1]);
    }
  }

  lemma {:induction false} ApplyKeepsSound(t: Tables, r: Request)
    requires Sound(t)
    ensures Sound(Apply(t, r))
  {
    ApplyKeepsConsistent(t, r);
    ApplyKeepsNamesOk(t, r);
    ApplyKeepsAppNamesOk(t, r);
    hide Consistent, NamesOk, AppNamesOk, Apply;
  }

  lemma StaysSound(t: Tables, r: Request, t': Tables)
    requires Sound(t) && t' == Apply(t, r)
    ensures Sound(t')
  {
    hide Sound, Apply;
    ApplyKeepsSound(t, r);
  }

  // ----- channels -----

  function WithChannel(t: Tables, id: string, row: ChannelRow): Tables {
    t.(channels := t.channels[id := row])
  }

  /** A channel is updated exactly when the new row fits: its package may be used, its name is valid and free. */
  lemma {:induction false} UpdateChannelAcceptedIff(t: Tables, id: string, name: string, package: Option<string>)
    requires Sound(t)
    ensures var out := Catalogue.UpdateChannel(t, id, name, package);
            if id !in t.channels then out.error == Some(NotFound) && out.tables == t
            else
              var written := WithChannel(t, id, t.channels[id].(name := name, package := package));
              && (out.error.None? <==> Sound(written))
              && out.tables == (if out.error.None? then written else t)
  {
    var out := Catalogue.UpdateChannel(t, id, name, package);
    hide Sound;
    StaysSound(t, UpdateChannel(id, name, package), out.tables);
    hide Apply, ChannelNameTaken, PackageRefusal;
    if id in t.channels {
      var row := t.channels[id].(name := name, package := package);
      if Sound(WithChannel(t, id, row)) {
        ChannelRowFits(t, id, row);
      }
    }
  }

  /** In a sound catalogue the row of a channel satisfies the checks that are made for it. */
  lemma {:induction false} ChannelRowFits(t: Tables, id: string, row: ChannelRow)
    requires Sound(WithChannel(t, id, row))
    ensures row.arch <= LAST_ARCH && row.name != "" && !ChannelNameTaken(t, id, row) && row.app in t.apps
    ensures row.package.Some? ==> PackageRefusal(t, row.package.value, id, row.app, row.arch).None?
  {
    var t' := WithChannel(t, id, row);
    assert ChannelOk(t', id);
    assert !ChannelNameTaken(t', id, row);
    assert forall c | c in t.channels && c != id :: t'.channels[c] == t.channels[c];
  }

  /** A channel is added exactly when its row fits and the id sent along is not one that its package blacklists. */
  lemma {:induction false} AddChannelAcceptedIff(t: Tables, id: string, given: string, row: ChannelRow)
    requires Sound(t)
    ensures var out := Catalogue.AddChannel(t, id, given, row);
            && (out.error.None? <==>
                  && id !in t.channels && Sound(WithChannel(t, id, row))
                  && (row.package.Some? ==> Pair(given, row.package.value) !in t.blacklist))
            && out.tables == (if out.error.None? then WithChannel(t, id, row) else t)
  {
    var out := Catalogue.AddChannel(t, id, given, row);
    hide Sound;
    StaysSound(t, AddChannel(id, given, row), out.tables);
    hide Apply, ChannelNameTaken, PackageRefusal;
    if id !in t.channels && Sound(WithChannel(t, id, row)) {
      ChannelRowFits(t, id, row);
    }
  }

  // ----- floors -----

  /** A package is marked as floor exactly when it fits the channel; marking it again replaces the reason. */
  lemma {:induction false} AddFloorAcceptedIff(t: Tables, channel: string, package: string, reason: Option<string>)
    requires Sound(t)
    ensures var out := Catalogue.AddFloor(t, channel, package, reason);
            && (out.error.None? <==> Fits(t, channel, package))
            && out.tables == (if out.error.None? then t.(floors := t.floors[Pair(channel, package) := reason]) else t)
  {
    hide Consistent, NamesOk, AppNamesOk;
  }

  // ----- groups -----

  function WithGroup(t: Tables, id: string, row: GroupRow): Tables {
    t.(groups := t.groups[id := row])
  }

  lemma {:induction false} GroupRowFits(t: Tables, id: string, row: GroupRow)
    requires Sound(WithGroup(t, id, row))
    ensures (row.officeHours ==> row.zoneKnown) && GroupColumnsOk(row) && !GroupNameTaken(t, id, row)
    ensures row.app in t.apps
    ensures row.channel.Some? ==> ChannelRefusal(t, row.channel.value, row.app).None?
  {
    var t' := WithGroup(t, id, row);
    assert GroupOk(t', id);
    assert !GroupNameTaken(t', id, row);
    assert forall g | g in t.groups && g != id :: t'.groups[g] == t.groups[g];
  }

  /** A group is added exactly when its row fits; without a track it gets its own id as track. */
  lemma {:induction false} AddGroupAcceptedIff(t: Tables, id: string, row: GroupRow)
    requires Sound(t)
    ensures var out, row' := Catalogue.AddGroup(t, id, row), row.(track := if row.track == "" then id else row.track);
            && (out.error.None? <==> id !in t.groups && Sound(WithGroup(t, id, row')))
            && out.tables == (if out.error.None? then WithGroup(t, id, row') else t)
  {
    var out, row' := Catalogue.AddGroup(t, id, row), row.(track := OrId(row.track, id));
    hide Sound;
    StaysSound(t, AddGroup(id, row), out.tables);
    SameName(t, id, row, row');
    hide Apply, GroupNameTaken, ChannelRefusal, GroupColumnsOk;
    if Sound(WithGroup(t, id, row')) {
      GroupRowFits(t, id, row');
    }
  }

  /** A group is updated exactly when its new row fits; it stays with its application. */
  lemma {:induction false} UpdateGroupAcceptedIff(t: Tables, id: string, given: GroupRow)
    requires Sound(t)
    ensures var out := Catalogue.UpdateGroup(t, id, given);
            if id !in t.groups then out.error.Some? && out.tables == t
            else
              var row := given.(app := t.groups[id].app, track := if given.track == "" then id else given.track);
              && (out.error.None? <==> Sound(WithGroup(t, id, row)))
              && out.tables == (if out.error.None? then WithGroup(t, id, row) else t)
  {
    var out := Catalogue.UpdateGroup(t, id, given);
    hide Sound;
    StaysSound(t, UpdateGroup(id, given), out.tables);
    hide Apply, GroupNameTaken, ChannelRefusal, GroupColumnsOk;
    if id in t.groups {
      var row := given.(app := t.groups[id].app, track := OrId(given.track, id));
      if Sound(WithGroup(t, id, row)) {
        GroupRowFits(t, id, row);
      }
    }
  }

  // ----- applications -----

  function WithApp(t: Tables, id: string, row: AppRow): Tables {
    t.(apps := t.apps[id := row])
  }

  lemma {:induction false} AppRowFits(t: Tables, id: string, row: AppRow)
    requires Sound(WithApp(t, id, row))
    ensures row.name != "" && !AppNameTaken(t, id, row)
  {
    var t' := WithApp(t, id, row);
    assert id in t'.apps && t'.apps[id] == row && !AppNameTaken(t', id, row);
    assert forall a | a in t.apps && a != id :: t'.apps[a] == t.apps[a];
  }

  lemma {:induction false} AddAppAcceptedIff(t: Tables, id: string, row: AppRow)
    requires Sound(t)
    ensures var out := Catalogue.AddApp(t, id, row);
            && (out.error.None? <==> id !in t.apps && Sound(WithApp(t, id, row)))
            && out.error in {None, Some(ConstraintViolation)}
            && out.tables == (if out.error.None? then WithApp(t, id, row) else t)
  {
    var out := Catalogue.AddApp(t, id, row);
    hide Sound;
    StaysSound(t, AddApp(id, row), out.tables);
    hide Apply, AppNameTaken;
    if Sound(WithApp(t, id, row)) {
      AppRowFits(t, id, row);
    }
  }

  lemma {:induction false} UpdateAppAcceptedIff(t: Tables, id: string, name: string)
    requires Sound(t)
    ensures var out := Catalogue.UpdateApp(t, id, name);
            if id !in t.apps then out.error == Some(NoRowsAffected) && out.tables == t
            else
              && (out.error.None? <==> Sound(WithApp(t, id, t.apps[id].(name := name))))
              && out.error in {None, Some(ConstraintViolation)}
              && out.tables == (if out.error.None? then WithApp(t, id, t.apps[id].(name := name)) else t)
  {
    var out := Catalogue.UpdateApp(t, id, name);
    hide Sound;
    StaysSound(t, UpdateApp(id, name), out.tables);
    hide Apply, AppNameTaken;
    if id in t.apps && Sound(WithApp(t, id, t.apps[id].(name := name))) {
      AppRowFits(t, id, t.apps[id].(name := name));
    }
  }

  // ----- packages -----

  /** The tables with this package row, blacklisted for exactly these channels. */
  function WithPackage(t: Tables, id: string, row: PackageRow, blacklist: seq<string>): Tables {
    t.(packages := t.packages[id := row],
       blacklist := (set x | x in t.blacklist && x.package != id) + set c | c in blacklist :: Pair(c, id))
  }

  /** A package is updated exactly when its new row and its new blacklist fit, and its other data can be stored. */
  lemma {:induction false} UpdatePackageAcceptedIff(t: Tables, id: string, version: Option<Version>,
      blacklist: seq<string>, restOk: bool)
    requires Sound(t)
    ensures var errors := UpdatePackageErrors(t, id, version, blacklist, restOk);
            if id !in t.packages || version.None? then
              errors != {} && Catalogue.UpdatePackage(t, id, version, blacklist, restOk) == t
            else
              var written := WithPackage(t, id, t.packages[id].(version := version.value), blacklist);
              && (errors == {} <==> restOk && Sound(written))
              && Catalogue.UpdatePackage(t, id, version, blacklist, restOk) == (if errors == {} then written else t)
  {
    if id in t.packages && version.Some? {
      var row := t.packages[id].(version := version.value);
      var written := WithPackage(t, id, row, blacklist);
      assert PackageOk(t, id);
      hide Sound, Taken, BlacklistRefusal;
      StaysSound(t, UpdatePackage(id, version, blacklist, restOk),
          Catalogue.UpdatePackage(t, id, version, blacklist, restOk));
      hide Apply;
      if Sound(written) {
        PackageRowFits(t, id, row, blacklist);
      }
      assert NewlyRefused(t, id, blacklist) != {} ==>
          exists c :: c in NewlyRefused(t, id, blacklist) && BlacklistRefusal(t, id, c).Some?;
    }
  }

  lemma {:induction false} PackageRowFits(t: Tables, id: string, row: PackageRow, blacklist: seq<string>)
    requires Sound(WithPackage(t, id, row, blacklist))
    ensures row.app in t.apps && !Taken(t.packages, id, row)
    ensures forall c | c in blacklist :: c in t.channels && BlacklistRefusal(t, id, c).None?
  {
    var t' := WithPackage(t, id, row, blacklist);
    assert PackageOk(t', id);
    assert forall p | p in t.packages && p != id :: t'.packages[p] == t.packages[p];
    forall c | c in blacklist
      ensures c in t.channels && BlacklistRefusal(t, id, c).None?
    {
      assert Pair(c, id) in t'.blacklist && Pair(c, id).channel in t'.channels;
      assert ChannelOk(t', c);
      assert Pair(c, id) in t'.floors ==> Fits(t', Pair(c, id).channel, Pair(c, id).package);
    }
  }

  /** A package is added exactly when its row and its blacklist fit; no channel of another architecture is listed. */
  lemma {:induction false} AddPackageAcceptedIff(t: Tables, id: string, app: string, arch: nat,
      version: Option<Version>, blacklist: seq<string>, restOk: bool)
    requires Sound(t)
    ensures var out := Catalogue.AddPackage(t, id, app, arch, version, blacklist, restOk);
            if version.None? then out.error.Some? && out.tables == t
            else
              var written := WithPackage(t, id, PackageRow(app, arch, version.value), blacklist);
              && (out.error.None? <==>
                    && id !in t.packages && Sound(written) && restOk && arch <= LAST_ARCH
                    && (forall i, j | 0 <= i < j < |blacklist| :: blacklist[i] != blacklist[j])
                    && forall c | c in blacklist :: c in t.channels && t.channels[c].arch == arch)
              && out.tables == (if out.error.None? then written else t)
  {
    hide Sound, Taken, BlacklistRefusal;
    StaysSound(t, AddPackage(id, app, arch, version, blacklist, restOk),
        Catalogue.AddPackage(t, id, app, arch, version, blacklist, restOk).tables);
    hide Apply, PairsOf, WithPackage;
    if version.Some? {
      var row := PackageRow(app, arch, version.value);
      if id !in t.packages {
        NewPackageWritten(t, id, row, blacklist);
        if Sound(WithPackage(t, id, row, blacklist)) {
          PackageRowFits(t, id, row, blacklist);
        }
      }
    }
  }

  lemma NewPackageWritten(t: Tables, id: string, row: PackageRow, blacklist: seq<string>)
    requires Sound(t) && id !in t.packages
    ensures t.(packages := t.packages[id := row], blacklist := t.blacklist + PairsOf(id, blacklist))
            == WithPackage(t, id, row, blacklist)
  {
    assert forall x | x in t.blacklist :: x.package in t.packages;
    assert (set x | x in t.blacklist && x.package != id) == t.blacklist;
  }

  // ----- keys -----

  /**
   What must differ between two packages, channels, groups and applications of a reachable catalogue, and what a
   group must have.
   */
  lemma {:induction false} KeysAreUnique(requests: seq<Request>)
    ensures var t := Exec(requests);
            && (forall p, q | p in t.packages && q in t.packages && p != q ::
                  !(t.packages[p].app == t.packages[q].app && t.packages[p].version == t.packages[q].version
                    && t.packages[p].arch == t.packages[q].arch))
            && (forall c, d | c in t.channels && d in t.channels && c != d ::
                  !(t.channels[c].app == t.channels[d].app && t.channels[c].name == t.channels[d].name
                    && t.channels[c].arch == t.channels[d].arch))
            && (forall g, h | g in t.groups && h in t.groups && g != h ::
                  !(t.groups[g].app == t.groups[h].app && t.groups[g].name == t.groups[h].name))
            && (forall a, b | a in t.apps && b in t.apps && a != b ::
                  !(t.apps[a].team == t.apps[b].team && t.apps[a].name == t.apps[b].name))
            && (forall g | g in t.groups ::
                  && t.groups[g].name != "" && t.groups[g].periodInterval != "" && t.groups[g].updateTimeout != ""
                  && t.groups[g].maxUpdates > 0 && (t.groups[g].officeHours ==> t.groups[g].zoneKnown))
  {
    RunsKeepSound(requests);
    var t := Exec(requests);
    hide Exec;
    assert forall p | p in t.packages :: PackageOk(t, p);
    assert forall c | c in t.channels :: !ChannelNameTaken(t, c, t.channels[c]);
    assert forall g | g in t.groups :: !GroupNameTaken(t, g, t.groups[g]);
    assert forall a | a in t.apps :: !AppNameTaken(t, a, t.apps[a]);
  }

  /** Nothing else needs to differ: whatever has a new key is accepted. */
  lemma {:induction false} NewKeysAreAccepted(t: Tables, id: string, app: string, arch: nat, version: Version,
      channel: ChannelRow, group: GroupRow, application: AppRow)
    ensures id !in t.packages && app in t.apps && arch <= LAST_ARCH
            && (forall p | p in t.packages ::
                  t.packages[p].app != app || t.packages[p].version != version || t.packages[p].arch != arch)
            ==> Catalogue.AddPackage(t, id, app, arch, Some(version), [], true).error.None?
    ensures id !in t.channels && channel.app in t.apps && channel.arch <= LAST_ARCH && channel.name != ""
            && channel.package == None
            && (forall c | c in t.channels :: t.channels[c].app != channel.app || t.channels[c].name != channel.name
                                              || t.channels[c].arch != channel.arch)
            ==> Catalogue.AddChannel(t, id, "", channel).error.None?
    ensures id !in t.groups && group.app in t.apps && group.channel == None && group.name != "" && group.maxUpdates > 0
            && group.periodInterval != "" && group.updateTimeout != "" && (group.officeHours ==> group.zoneKnown)
            && (forall g | g in t.groups :: t.groups[g].app != group.app || t.groups[g].name != group.name)
            ==> Catalogue.AddGroup(t, id, group).error.None?
    ensures id !in t.apps && application.name != ""
            && (forall a | a in t.apps :: t.apps[a].team != application.team || t.apps[a].name != application.name)
            ==> Catalogue.AddApp(t, id, application).error.None?
  {
  }

  // ----- why a request is refused -----

  /** An error about a channel and a package that is meant for it names something that is wrong. */
  predicate PackageErrorIsTrue(t: Tables, error: AdminError, p: string, channel: string, app: string, arch: nat) {
    match error
    case NotFound => p !in t.packages
    case InvalidPackage => p in t.packages && t.packages[p].app != app
    case ArchMismatch => p in t.packages && t.packages[p].arch != arch
    case BlacklistedChannel => Pair(channel, p) in t.blacklist
    case _ => false
  }

  /** The error of a refused channel request says what is wrong with the request. */
  lemma {:induction false} ChannelErrorIsTrue(t: Tables, id: string, name: string, package: Option<string>)
    ensures match Catalogue.UpdateChannel(t, id, name, package).error
            case None => true
            case Some(ConstraintViolation) =>
              id in t.channels
              && (name == "" || ChannelNameTaken(t, id, t.channels[id].(name := name, package := package)))
            case Some(e) =>
              || (e == NotFound && id !in t.channels)
              || (id in t.channels && package.Some?
                  && PackageErrorIsTrue(t, e, package.value, id, t.channels[id].app, t.channels[id].arch))
  {
    hide ChannelNameTaken;
  }

  lemma {:induction false} NewChannelErrorIsTrue(t: Tables, id: string, given: string, row: ChannelRow)
    ensures match Catalogue.AddChannel(t, id, given, row).error
            case None => true
            case Some(InvalidArch) => row.arch > LAST_ARCH
            case Some(ConstraintViolation) =>
              id in t.channels || row.app !in t.apps || row.name == "" || ChannelNameTaken(t, id, row)
            case Some(e) => row.package.Some? && PackageErrorIsTrue(t, e, row.package.value, given, row.app, row.arch)
  {
    hide ChannelNameTaken;
  }

  lemma {:induction false} FloorErrorIsTrue(t: Tables, channel: string, package: string, reason: Option<string>)
    ensures var known := channel in t.channels && package in t.packages;
            match Catalogue.AddFloor(t, channel, package, reason).error
            case None => true
            case Some(InvalidPackage) => !known
            case Some(ArchMismatch) => known && t.channels[channel].arch != t.packages[package].arch
            case Some(InvalidApplicationOrGroup) => known && t.channels[channel].app != t.packages[package].app
            case Some(PackageBlacklisted) => Pair(channel, package) in t.blacklist
            case Some(_) => false
  {
  }

  predicate GroupErrorIsTrue(t: Tables, error: AdminError, id: string, row: GroupRow, added: bool) {
    match error
    case ExpectingValidTimezone => row.officeHours && !row.zoneKnown
    case NotFound => (!added && id !in t.groups) || (row.channel.Some? && row.channel.value !in t.channels)
    case InvalidChannel =>
      row.channel.Some? && row.channel.value in t.channels && t.channels[row.channel.value].app != row.app
    case ConstraintViolation =>
      || (added && (id in t.groups || row.app !in t.apps))
      || !GroupColumnsOk(row) || GroupNameTaken(t, id, row)
    case _ => false
  }

  lemma {:induction false} GroupErrorsAreTrue(t: Tables, id: string, row: GroupRow)
    ensures var error := Catalogue.AddGroup(t, id, row).error;
            error.Some? ==> GroupErrorIsTrue(t, error.value, id, row, true)
    ensures var error := Catalogue.UpdateGroup(t, id, row).error;
            error.Some? ==>
              GroupErrorIsTrue(t, error.value, id, if id in t.groups then row.(app := t.groups[id].app) else row, false)
  {
    if id in t.groups {
      SameName(t, id, row.(app := t.groups[id].app), row.(app := t.groups[id].app, track := OrId(row.track, id)));
    }
    hide GroupNameTaken;
  }

  lemma {:induction false} PackageErrorsAreTrue(t: Tables, id: string, app: string, arch: nat,
      version: Option<Version>, blacklist: seq<string>, restOk: bool)
    ensures match Catalogue.AddPackage(t, id, app, arch, version, blacklist, restOk).error
            case None => true
            case Some(InvalidSemver) => version.None?
            case Some(InvalidArch) => arch > LAST_ARCH
            case Some(ArchMismatch) => exists c | c in blacklist :: c in t.channels && t.channels[c].arch != arch
            case Some(ConstraintViolation) =>
              || id in t.packages || app !in t.apps || !restOk || !NoRepeats(blacklist)
              || (version.Some? && Taken(t.packages, id, PackageRow(app, arch, version.value)))
              || exists c | c in blacklist :: c !in t.channels
            case Some(_) => false
    ensures forall e | e in UpdatePackageErrors(t, id, version, blacklist, restOk) ::
              match e
              case InvalidSemver => version.None?
              case NoRowsAffected => id !in t.packages
              case ConstraintViolation =>
                || !restOk
                || (version.Some? && id in t.packages
                    && Taken(t.packages, id, t.packages[id].(version := version.value)))
              case NotFound => exists c | c in blacklist :: c !in t.channels
              case BlacklistingChannel =>
                exists c | c in blacklist :: c in t.channels && t.channels[c].package == Some(id)
              case BlacklistingFloor => exists c | c in blacklist :: Pair(c, id) in t.floors
              case _ => false
  {
    hide Taken, NoRepeats, PairsOf;
  }

  // ----- deletions -----

  /** A group's deletion. */
  lemma {:induction false} DeleteGroupTakes(t: Tables, id: string)
    ensures var out := Catalogue.DeleteGroup(t, id);
            && out.error == (if id in t.groups then None else Some(NoRowsAffected))
            && out.tables == t.(groups := out.tables.groups)
            && out.tables.groups.Keys == t.groups.Keys - {id}
            && forall g | g in out.tables.groups :: out.tables.groups[g] == t.groups[g]
  {
  }

  /** A floor's removal. */
  lemma {:induction false} RemoveFloorTakes(t: Tables, channel: string, package: string)
    ensures var out := Catalogue.RemoveFloor(t, channel, package);
            && out.error == (if Pair(channel, package) in t.floors then None else Some(NoRowsAffected))
            && out.tables == t.(floors := out.tables.floors)
            && out.tables.floors.Keys == t.floors.Keys - {Pair(channel, package)}
            && forall x | x in out.tables.floors :: out.tables.floors[x] == t.floors[x]
  {
  }

  /** The row of a channel once these packages are gone. */
  function ChannelWithout(row: ChannelRow, gone: set<string>): ChannelRow {
    if row.package.Some? && row.package.value in gone then row.(package := None) else row
  }

  function GroupWithout(row: GroupRow, gone: set<string>): GroupRow {
    if row.channel.Some? && row.channel.value in gone then row.(channel := None) else row
  }

  /**
   What deletions leave: without these packages, channels and groups, floors and blacklist rows of what is left,
   channels without the packages that are gone and groups without the channels that are gone.
   */
  ghost predicate Left(t: Tables, t': Tables, packages: set<string>, channels: set<string>, groups: set<string>) {
    && t'.packages.Keys == t.packages.Keys - packages
    && (forall p | p in t'.packages :: t'.packages[p] == t.packages[p])
    && t'.channels.Keys == t.channels.Keys - channels
    && (forall c | c in t'.channels :: t'.channels[c] == ChannelWithout(t.channels[c], packages))
    && t'.groups.Keys == t.groups.Keys - groups
    && (forall g | g in t'.groups :: t'.groups[g] == GroupWithout(t.groups[g], channels))
    && (forall x :: x in t'.floors <==> x in t.floors && x.package !in packages && x.channel !in channels)
    && (forall x | x in t'.floors :: t'.floors[x] == t.floors[x])
    && (forall x :: x in t'.blacklist <==> x in t.blacklist && x.package !in packages && x.channel !in channels)
  }

  /** A package is deleted exactly when it exists and is no floor of any channel. */
  lemma {:induction false} DeletePackageTakes(t: Tables, id: string)
    ensures var out := Catalogue.DeletePackage(t, id);
            && (out.error.None? <==> id in t.packages && forall x | x in t.floors :: x.package != id)
            && (out.error == Some(NoRowsAffected) <==> id !in t.packages)
            && (out.error == Some(PackageIsFloor) <==> id in t.packages && exists x | x in t.floors :: x.package == id)
            && (if out.error.None? then Left(t, out.tables, {id}, {}, {}) && out.tables.apps == t.apps
                else out.tables == t)
  {
  }

  lemma {:induction false} DeleteChannelTakes(t: Tables, id: string)
    ensures var out := Catalogue.DeleteChannel(t, id);
            && out.error == (if id in t.channels then None else Some(NoRowsAffected))
            && (if out.error.None? then Left(t, out.tables, {}, {id}, {}) && out.tables.apps == t.apps
                else out.tables == t)
  {
  }

  /** An application goes with its packages, channels and groups. */
  lemma {:induction false} DeleteAppTakes(t: Tables, id: string)
    ensures var out := Catalogue.DeleteApp(t, id);
            && out.error == (if id in t.apps then None else Some(NoRowsAffected))
            && (if out.error.None? then
                  && Left(t, out.tables, set p | p in t.packages && t.packages[p].app == id,
                          set c | c in t.channels && t.channels[c].app == id,
                          set g | g in t.groups && t.groups[g].app == id)
                  && out.tables.apps.Keys == t.apps.Keys - {id}
                  && forall a | a in out.tables.apps :: out.tables.apps[a] == t.apps[a]
                else out.tables == t)
  {
  }
}
