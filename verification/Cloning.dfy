/**
 Cloning an application: its channels and groups are copied into a new application, without packages.
 The copy is not transactional, so a failure leaves the part that was copied so far.
 */
module Cloning {
  import opened Wrappers
  import opened Catalogue
  import opened CatalogueRuns
  import opened AdminService

  /** `order` lists the members of `s`, each once, as a query returns them. */
  ghost predicate Lists(order: seq<string>, s: set<string>) {
    NoRepeats(order) && forall x :: x in order <==> x in s
  }

  /** Ids that the database has not given out yet. */
  predicate Unused(ids: seq<string>, taken: set<string>) {
    NoRepeats(ids) && forall x | x in ids :: x !in taken
  }

  function CopiedChannel(row: ChannelRow, app: string): ChannelRow {
    row.(app := app, package := None)
  }

  /** The copy of a group: its channel goes through the id map, updates are enabled, the track stays. */
  function CopiedGroup(row: GroupRow, app: string, id: string, ids: map<string, string>): GroupRow {
    row.(app := app,
         channel := if row.channel.Some? && row.channel.value in ids then Some(ids[row.channel.value]) else None,
         updatesEnabled := true,
         track := OrId(row.track, id))
  }

  /** The id map after `n` copied channels. */
  ghost predicate IdMap(ids: map<string, string>, order: seq<string>, newIds: seq<string>, n: nat)
    requires n <= |order| && n <= |newIds|
  {
    && ids.Keys == (set x | x in order[..n])
    && forall i | 0 <= i < n :: order[i] in ids && ids[order[i]] == newIds[i]
  }

  /** Compared with `t`, the first `n` channels were copied into `app`. */
  ghost predicate ChannelsCopied(t: Tables, t': Tables, app: string, order: seq<string>, newIds: seq<string>, n: nat)
    requires n <= |order| && n <= |newIds| && forall x | x in order :: x in t.channels
  {
    && t'.channels.Keys == t.channels.Keys + (set x | x in newIds[..n])
    && (forall c | c in t.channels :: t'.channels[c] == t.channels[c])
    && (forall i | 0 <= i < n :: t'.channels[newIds[i]] == CopiedChannel(t.channels[order[i]], app))
  }

  /** Compared with `t`, the first `m` groups were copied into `app`. */
  ghost predicate GroupsCopied(t: Tables, t': Tables, app: string, ids: map<string, string>, order: seq<string>,
                               newIds: seq<string>, m: nat)
    requires m <= |order| && m <= |newIds| && forall x | x in order :: x in t.groups
  {
    && t'.groups.Keys == t.groups.Keys + (set x | x in newIds[..m])
    && (forall g | g in t.groups :: t'.groups[g] == t.groups[g])
    && (forall j | 0 <= j < m :: t'.groups[newIds[j]] == CopiedGroup(t.groups[order[j]], app, newIds[j], ids))
  }

  /** Nothing but channels and groups was added, apart from the new application itself. */
  predicate RestUnchanged(t: Tables, t': Tables, app: string) {
    && app in t'.apps && t'.apps == t.apps[app := t'.apps[app]]
    && t'.packages == t.packages && t'.floors == t.floors && t'.blacklist == t.blacklist
  }

  // ----- why the copy cannot be refused -----

  /** Channels and groups have valid attributes, and names that are unique within their application. */
  ghost predicate NamesOk(t: Tables) {
    && (forall c | c in t.channels ::
          t.channels[c].arch <= LAST_ARCH && t.channels[c].name != "" && !ChannelNameTaken(t, c, t.channels[c]))
    && (forall g | g in t.groups ::
          && (t.groups[g].officeHours ==> t.groups[g].zoneKnown) && GroupColumnsOk(t.groups[g])
          && !GroupNameTaken(t, g, t.groups[g]))
  }

  /** Channels of `t'` are channels of `t` with the same key, and so are groups. */
  ghost predicate NoNewNames(t: Tables, t': Tables) {
    && (forall c | c in t'.channels ::
          && c in t.channels && t'.channels[c].app == t.channels[c].app
          && t'.channels[c].name == t.channels[c].name && t'.channels[c].arch == t.channels[c].arch)
    && (forall g | g in t'.groups ::
          && g in t.groups && t'.groups[g].app == t.groups[g].app && t'.groups[g].name == t.groups[g].name
          && t'.groups[g].officeHours == t.groups[g].officeHours && t'.groups[g].zoneKnown == t.groups[g].zoneKnown
          && GroupColumnsOk(t'.groups[g]) == GroupColumnsOk(t.groups[g]))
  }

  lemma {:induction false} FewerNamesOk(t: Tables, t': Tables)
    requires NamesOk(t) && NoNewNames(t, t')
    ensures NamesOk(t')
  {
    forall c | c in t'.channels
      ensures !ChannelNameTaken(t', c, t'.channels[c])
    {
      assert !ChannelNameTaken(t, c, t.channels[c]);
    }
    forall g | g in t'.groups
      ensures !GroupNameTaken(t', g, t'.groups[g])
    {
      assert !GroupNameTaken(t, g, t.groups[g]);
    }
  }

  lemma {:induction false} WriteChannelNamesOk(t: Tables, t': Tables, id: string, row: ChannelRow)
    requires NamesOk(t) && t' == t.(channels := t.channels[id := row])
    requires row.arch <= LAST_ARCH && row.name != "" && !ChannelNameTaken(t, id, row)
    ensures NamesOk(t')
  {
    forall c | c in t'.channels
      ensures !ChannelNameTaken(t', c, t'.channels[c])
    {
      if c != id {
        assert !ChannelNameTaken(t, c, t.channels[c]);
      }
    }
    forall g | g in t'.groups
      ensures !GroupNameTaken(t', g, t'.groups[g])
    {
      assert !GroupNameTaken(t, g, t.groups[g]);
    }
  }

  lemma {:induction false} WriteGroupNamesOk(t: Tables, t': Tables, id: string, row: GroupRow)
    requires NamesOk(t) && t' == t.(groups := t.groups[id := row])
    requires (row.officeHours ==> row.zoneKnown) && GroupColumnsOk(row) && !GroupNameTaken(t, id, row)
    ensures NamesOk(t')
  {
    forall c | c in t'.channels
      ensures !ChannelNameTaken(t', c, t'.channels[c])
    {
      assert !ChannelNameTaken(t, c, t.channels[c]);
    }
    forall g | g in t'.groups
      ensures !GroupNameTaken(t', g, t'.groups[g])
    {
      if g != id {
        assert !GroupNameTaken(t, g, t.groups[g]);
      }
    }
  }

  lemma {:induction false} ApplyKeepsNamesOk(t: Tables, r: Request)
    requires NamesOk(t)
    ensures NamesOk(Apply(t, r))
  {
    hide NamesOk, ChannelNameTaken, GroupNameTaken;
    var t' := Apply(t, r);
    match r
    case AddChannel(id, given, row) =>
      if t' != t {
        WriteChannelNamesOk(t, t', id, row);
      }
    case UpdateChannel(id, name, package) =>
      if t' != t {
        NamesOkAt(t, id);
        WriteChannelNamesOk(t, t', id, t'.channels[id]);
      }
    case AddGroup(id, row) =>
      if t' != t {
        SameName(t, id, row, t'.groups[id]);
        WriteGroupNamesOk(t, t', id, t'.groups[id]);
      }
    case UpdateGroup(id, given) =>
      if t' != t {
        WriteGroupNamesOk(t, t', id, t'.groups[id]);
      }
    case DeleteApp(id) =>
      AppLossAddsNoName(t, id);
      FewerNamesOk(t, t');
    case AddPackage(_, _, _, _, _, _) =>
      PackageAddsNoName(t, r);
      FewerNamesOk(t, t');
    case UpdatePackage(_, _, _, _) =>
      PackageAddsNoName(t, r);
      FewerNamesOk(t, t');
    case DeletePackage(_) =>
      LossAddsNoName(t, r);
      FewerNamesOk(t, t');
    case DeleteChannel(_) =>
      LossAddsNoName(t, r);
      FewerNamesOk(t, t');
    case _ =>
      OthersAddNoName(t, r);
      FewerNamesOk(t, t');
  }

  lemma OthersAddNoName(t: Tables, r: Request)
    requires r.AddApp? || r.UpdateApp? || r.AddFloor? || r.RemoveFloor? || r.DeleteGroup?
    ensures NoNewNames(t, Apply(t, r))
  {
    hide AppNameTaken, NoNewNames;
    SameRowsAddNoName(t, Apply(t, r));
  }

  lemma PackageAddsNoName(t: Tables, r: Request)
    requires r.AddPackage? || r.UpdatePackage?
    ensures NoNewNames(t, Apply(t, r))
  {
    assert Apply(t, r).channels == t.channels && Apply(t, r).groups == t.groups by {
      hide Taken, PairsOf, UpdatePackageErrors, NoRepeats;
    }
    SameRowsAddNoName(t, Apply(t, r));
    hide Apply, NoNewNames;
  }

  lemma SameRowsAddNoName(t: Tables, t': Tables)
    requires t'.channels == t.channels && t'.groups.Keys <= t.groups.Keys
    requires forall g | g in t'.groups :: t'.groups[g] == t.groups[g]
    ensures NoNewNames(t, t')
  {
    hide GroupColumnsOk;
  }

  lemma LossAddsNoName(t: Tables, r: Request)
    requires r.DeletePackage? || r.DeleteChannel?
    ensures NoNewNames(t, Apply(t, r))
  {
  }

  lemma AppLossAddsNoName(t: Tables, id: string)
    ensures NoNewNames(t, Catalogue.DeleteApp(t, id).tables)
  {
    hide PackagesOf, ChannelsOf, GroupsOf;
  }

  lemma NamesOkAt(t: Tables, c: string)
    requires NamesOk(t) && c in t.channels
    ensures t.channels[c].arch <= LAST_ARCH
  {
  }

  lemma SameName(t: Tables, id: string, a: GroupRow, b: GroupRow)
    requires a.app == b.app && a.name == b.name
    ensures GroupNameTaken(t, id, a) == GroupNameTaken(t, id, b)
  {
  }

  lemma {:induction false} RunsKeepNamesOk(requests: seq<Request>)
    ensures NamesOk(Exec(requests))
  {
    hide Apply;
    if requests != [] {
      hide NamesOk;
      RunsKeepNamesOk(requests[..|requests| - 1]);
      ApplyKeepsNamesOk(Exec(requests[..|requests| - 1]), requests[|requests| - 1]);
    }
  }

  /** What is known while the copy into `app` is under way. */
  ghost predicate Copying(t: Tables, t': Tables, app: string, source: string, channelOrder: seq<string>,
      channelIds: seq<string>) {
    && Consistent(t) && NamesOk(t) && app !in t.apps
    && Lists(channelOrder, ChannelsOf(t, source)) && |channelIds| == |channelOrder|
    && Unused(channelIds, t.channels.Keys) && RestUnchanged(t, t', app)
  }

  lemma NewAppIsEmpty(t: Tables, app: string)
    requires Consistent(t) && app !in t.apps
    ensures forall c | c in t.channels :: t.channels[c].app != app
    ensures forall g | g in t.groups :: t.groups[g].app != app
  {
    forall c | c in t.channels
      ensures t.channels[c].app != app
    {
      assert ChannelOk(t, c);
    }
    forall g | g in t.groups
      ensures t.groups[g].app != app
    {
      assert GroupOk(t, g);
    }
  }

  /** The next channel is accepted: the new application has no channel of that name and architecture yet. */
  lemma {:induction false} NextChannelAccepted(t: Tables, t': Tables, app: string, source: string, order: seq<string>,
                                               ids: seq<string>, n: nat)
    requires Copying(t, t', app, source, order, ids) && n < |order| && ChannelsCopied(t, t', app, order, ids, n)
    ensures Catalogue.AddChannel(t', ids[n], order[n], CopiedChannel(t.channels[order[n]], app)).error.None?
  {
    assert ids[n] in ids && order[n] in order;
    assert ids[n] !in ids[..n];
    var row := CopiedChannel(t.channels[order[n]], app);
    NewAppIsEmpty(t, app);
    forall c | c in t'.channels && c != ids[n] && t'.channels[c].app == app
      ensures t'.channels[c].name != row.name || t'.channels[c].arch != row.arch
    {
      if c !in t.channels {
        var i :| 0 <= i < n && ids[i] == c;
        assert order[i] in order && !ChannelNameTaken(t, order[n], t.channels[order[n]]);
      }
    }
  }

  /** The name of the next group is new in the new application. */
  lemma {:induction false} NextGroupNameIsNew(t: Tables, t': Tables, app: string, source: string,
      ids: map<string, string>, order: seq<string>, groupIds: seq<string>, m: nat)
    requires Consistent(t) && NamesOk(t) && app !in t.apps
    requires Lists(order, GroupsOf(t, source)) && |groupIds| == |order|
    requires m < |order| && GroupsCopied(t, t', app, ids, order, groupIds, m)
    ensures forall g | g in t'.groups && g != groupIds[m] && t'.groups[g].app == app ::
              t'.groups[g].name != t.groups[order[m]].name
  {
    NewAppIsEmpty(t, app);
    hide Consistent;
    assert order[m] in order;
    assert !GroupNameTaken(t, order[m], t.groups[order[m]]);
    hide NamesOk;
    forall g | g in t'.groups && g != groupIds[m] && t'.groups[g].app == app
      ensures t'.groups[g].name != t.groups[order[m]].name
    {
      if g !in t.groups {
        var j :| 0 <= j < m && groupIds[j] == g;
        assert order[j] in order && order[j] != order[m];
      }
    }
  }

  lemma GroupIsAccepted(t: Tables, id: string, row: GroupRow)
    requires (row.officeHours ==> row.zoneKnown) && GroupColumnsOk(row)
    requires row.channel.Some? ==> row.channel.value in t.channels && t.channels[row.channel.value].app == row.app
    requires id !in t.groups && row.app in t.apps
    requires forall g | g in t.groups && g != id && t.groups[g].app == row.app :: t.groups[g].name != row.name
    ensures Catalogue.AddGroup(t, id, row).error.None?
  {
  }

  lemma NextGroupIdIsNew(t: Tables, t': Tables, app: string, ids: map<string, string>, order: seq<string>,
      groupIds: seq<string>, m: nat)
    requires forall x | x in order :: x in t.groups
    requires m < |order| == |groupIds| && Unused(groupIds, t.groups.Keys)
             && GroupsCopied(t, t', app, ids, order, groupIds, m)
    ensures groupIds[m] !in t'.groups
  {
    assert groupIds[m] in groupIds;
    assert groupIds[m] !in groupIds[..m];
  }

  /** The next group is accepted: its channel was copied, and its name is new in the new application. */
  lemma {:induction false} NextGroupAccepted(t: Tables, t': Tables, app: string, source: string,
      channelOrder: seq<string>, channelIds: seq<string>, ids: map<string, string>, order: seq<string>,
      groupIds: seq<string>, m: nat)
    requires Copying(t, t', app, source, channelOrder, channelIds)
    requires ChannelsCopied(t, t', app, channelOrder, channelIds, |channelOrder|)
             && IdMap(ids, channelOrder, channelIds, |channelOrder|)
    requires Lists(order, GroupsOf(t, source)) && |groupIds| == |order| && Unused(groupIds, t.groups.Keys)
    requires m < |order| && GroupsCopied(t, t', app, ids, order, groupIds, m)
    ensures order[m] in order
            && Catalogue.AddGroup(t', groupIds[m], CopiedGroup(t.groups[order[m]], app, groupIds[m], ids)).error.None?
  {
    assert order[m] in order && order[m] in t.groups;
    assert app in t'.apps;
    SourceRows(t, source, channelOrder, order);
    hide IdMap, ChannelsCopied, GroupsCopied, Consistent, NamesOk, Lists, Unused, Catalogue.AddGroup, CopiedGroup,
      RestUnchanged, GroupColumnsOk;
    CopyHasColumns(t, order[m], app, groupIds[m], ids);
    NextGroupNameIsNew(t, t', app, source, ids, order, groupIds, m);
    NextGroupIdIsNew(t, t', app, ids, order, groupIds, m);
    MappedChannel(t, t', app, channelOrder, channelIds, ids);
    GroupIsAccepted(t', groupIds[m], CopiedGroup(t.groups[order[m]], app, groupIds[m], ids));
  }

  /** What of the columns of a group its copy keeps. */
  lemma CopyHasColumns(t: Tables, g: string, app: string, id: string, ids: map<string, string>)
    requires NamesOk(t) && g in t.groups
    ensures var row := CopiedGroup(t.groups[g], app, id, ids);
            && row.app == app && row.name == t.groups[g].name && GroupColumnsOk(row)
            && (row.officeHours ==> row.zoneKnown)
            && (row.channel.Some? ==> exists c | c in ids :: ids[c] == row.channel.value)
  {
    assert GroupColumnsOk(t.groups[g]);
    hide NamesOk;
  }

  /** A channel that comes out of the id map is a channel of the new application. */
  lemma {:induction false} MappedChannel(t: Tables, t': Tables, app: string, order: seq<string>, newIds: seq<string>,
                                         ids: map<string, string>)
    requires |newIds| == |order| && forall x | x in order :: x in t.channels
    requires ChannelsCopied(t, t', app, order, newIds, |order|) && IdMap(ids, order, newIds, |order|)
    ensures forall c | c in ids ::
            ids[c] in t'.channels && t'.channels[ids[c]].app == app && t'.channels[ids[c]].package.None?
  {
    forall c | c in ids
      ensures ids[c] in t'.channels && t'.channels[ids[c]].app == app && t'.channels[ids[c]].package.None?
    {
      assert order[..|order|] == order;
      var i :| 0 <= i < |order| && order[i] == c;
      assert t'.channels[newIds[i]] == CopiedChannel(t.channels[order[i]], app);
      assert newIds[..|order|][i] == newIds[i];
    }
  }

  // ----- one insert -----

  lemma ChannelAdded(t: Tables, id: string, given: string, row: ChannelRow)
    requires Catalogue.AddChannel(t, id, given, row).error.None?
    ensures Catalogue.AddChannel(t, id, given, row).tables == t.(channels := t.channels[id := row])
  {
  }

  lemma GroupAdded(t: Tables, id: string, row: GroupRow)
    requires Catalogue.AddGroup(t, id, row).error.None?
    ensures Catalogue.AddGroup(t, id, row).tables == t.(groups := t.groups[id := row.(track := OrId(row.track, id))])
  {
  }

  lemma {:induction false} ChannelsCopiedNext(t: Tables, t': Tables, t2: Tables, app: string, order: seq<string>,
      newIds: seq<string>, n: nat)
    requires forall x | x in order :: x in t.channels
    requires n < |order| == |newIds| && Unused(newIds, t.channels.Keys)
    requires ChannelsCopied(t, t', app, order, newIds, n)
    requires t2.channels == t'.channels[newIds[n] := CopiedChannel(t.channels[order[n]], app)]
    ensures ChannelsCopied(t, t2, app, order, newIds, n + 1)
  {
    hide CopiedChannel;
    assert newIds[n] in newIds;
    assert newIds[..n + 1] == newIds[..n] + [newIds[n]];
    forall j | 0 <= j < n
      ensures newIds[j] != newIds[n]
    {
    }
  }

  lemma {:induction false} IdMapNext(ids: map<string, string>, order: seq<string>, newIds: seq<string>, n: nat)
    requires NoRepeats(order) && n < |order| == |newIds| && IdMap(ids, order, newIds, n)
    ensures IdMap(ids[order[n] := newIds[n]], order, newIds, n + 1)
  {
    assert order[..n + 1] == order[..n] + [order[n]];
  }

  lemma {:induction false} GroupsCopiedNext(t: Tables, t': Tables, t2: Tables, app: string, ids: map<string, string>,
      order: seq<string>, newIds: seq<string>, m: nat)
    requires forall x | x in order :: x in t.groups
    requires m < |order| == |newIds| && Unused(newIds, t.groups.Keys)
    requires GroupsCopied(t, t', app, ids, order, newIds, m)
    requires t2.groups == t'.groups[newIds[m] := CopiedGroup(t.groups[order[m]], app, newIds[m], ids)]
    ensures GroupsCopied(t, t2, app, ids, order, newIds, m + 1)
  {
    hide CopiedGroup;
    var id := newIds[m];
    assert id in newIds && id !in t.groups;
    assert newIds[..m + 1] == newIds[..m] + [id];
    assert t2.groups.Keys == t'.groups.Keys + {id};
    forall j | 0 <= j < m
      ensures t2.groups[newIds[j]] == CopiedGroup(t.groups[order[j]], app, newIds[j], ids)
    {
      assert newIds[j] != id && newIds[j] in newIds[..m];
    }
  }

  /** A copied group already has a track. */
  lemma TrackIsSet(row: GroupRow, app: string, id: string, ids: map<string, string>)
    ensures var copy := CopiedGroup(row, app, id, ids); copy.(track := OrId(copy.track, id)) == copy
  {
  }

  // ----- the copy -----

  datatype CloneReport = CloneReport(error: Option<AdminError>, channels: nat, groups: nat, ids: map<string, string>)

  /** How far the copy got: `report.channels` channels, then `report.groups` groups. */
  ghost predicate CopiedSoFar(t: Tables, t': Tables, app: string, channelOrder: seq<string>, groupOrder: seq<string>,
                              channelIds: seq<string>, groupIds: seq<string>, ids: map<string, string>, n: nat, m: nat)
    requires forall x | x in channelOrder :: x in t.channels
    requires forall x | x in groupOrder :: x in t.groups
  {
    && n <= |channelOrder| == |channelIds| && m <= |groupOrder| == |groupIds|
    && RestUnchanged(t, t', app)
    && ChannelsCopied(t, t', app, channelOrder, channelIds, n) && IdMap(ids, channelOrder, channelIds, n)
    && GroupsCopied(t, t', app, ids, groupOrder, groupIds, m)
    && (m > 0 ==> n == |channelOrder|)
  }

  function Smaller(a: nat, b: nat): nat {
    if a < b then a else b
  }

  /** The rows of the source application can be read off the current tables while the copy is under way. */
  lemma SourceRows(t: Tables, source: string, channelOrder: seq<string>, groupOrder: seq<string>)
    requires Lists(channelOrder, ChannelsOf(t, source)) && Lists(groupOrder, GroupsOf(t, source))
    ensures NoRepeats(channelOrder) && forall x | x in channelOrder :: x in t.channels
    ensures NoRepeats(groupOrder) && forall x | x in groupOrder :: x in t.groups
  {
  }

  /** Copy the next channel; `ok` is false when the insert was refused. */
  method CopyChannel(admin: Admin, ghost t: Tables, app: string, ghost source: string, order: seq<string>,
      channelIds: seq<string>, n: nat, ids: map<string, string>, ghost sound: bool)
    returns (ok: bool, ids': map<string, string>)
    requires RestUnchanged(t, admin.State(), app)
    requires sound ==> Copying(t, admin.State(), app, source, order, channelIds)
    requires NoRepeats(order) && (forall x | x in order :: x in t.channels)
    requires n < |order| == |channelIds| && Unused(channelIds, t.channels.Keys)
    requires ChannelsCopied(t, admin.State(), app, order, channelIds, n) && IdMap(ids, order, channelIds, n)
    modifies admin`channels
    ensures RestUnchanged(t, admin.State(), app)
    ensures sound ==> ok && Copying(t, admin.State(), app, source, order, channelIds)
    ensures !ok ==> admin.channels == old(admin.channels)
    ensures ok ==>
            ChannelsCopied(t, admin.State(), app, order, channelIds, n + 1) && IdMap(ids', order, channelIds, n + 1)
  {
    ghost var before := admin.State();
    var originalChannelID := order[n];
    ChannelStillThere(t, before, app, order, channelIds, n);
    ids' := ids;
    hide ChannelsCopied, IdMap, Unused, NoRepeats, CopiedChannel, Copying;
    if sound {
      NextChannelAccepted(t, before, app, source, order, channelIds, n);
    }
    var channel := CopiedChannel(admin.channels[originalChannelID], app);
    var error := admin.AddChannel(channelIds[n], originalChannelID, channel);
    if error.Some? {
      RefusedChangesNothing(before, channelIds[n], originalChannelID, channel);
      return false, ids';
    }
    ChannelAdded(before, channelIds[n], originalChannelID, channel);
    hide Catalogue.AddChannel;
    ChannelsCopiedNext(t, before, admin.State(), app, order, channelIds, n);
    CopyingGoesOn(t, before, admin.State(), app, source, order, channelIds);
    IdMapNext(ids, order, channelIds, n);
    ids' := ids[originalChannelID := channelIds[n]];
    return true, ids';
  }

  lemma RefusedChangesNothing(t: Tables, id: string, given: string, row: ChannelRow)
    requires Catalogue.AddChannel(t, id, given, row).error.Some?
    ensures Catalogue.AddChannel(t, id, given, row).tables == t
  {
  }

  /** The loop over the source's channels; stops when an insert fails. */
  method CopyChannels(admin: Admin, ghost t: Tables, app: string, ghost source: string, order: seq<string>,
      channelIds: seq<string>, budget: nat, ghost sound: bool) returns (n: nat, ids: map<string, string>)
    requires NoRepeats(order) && (forall x | x in order :: x in t.channels)
    requires |channelIds| == |order| && Unused(channelIds, t.channels.Keys)
    requires RestUnchanged(t, admin.State(), app) && admin.channels == t.channels && admin.groups == t.groups
    requires sound ==> Copying(t, admin.State(), app, source, order, channelIds)
    modifies admin`channels
    ensures n <= |order| && n <= budget && RestUnchanged(t, admin.State(), app)
    ensures ChannelsCopied(t, admin.State(), app, order, channelIds, n) && IdMap(ids, order, channelIds, n)
    ensures sound ==> n == Smaller(budget, |order|)
  {
    ids, n := map[], 0;
    NoChannelCopied(t, admin.State(), app, order, channelIds);
    hide Copying, Unused, NoRepeats, ChannelsCopied, IdMap, RestUnchanged;
    var ok := true;
    while n < |order| && n < budget && ok
      invariant n <= budget && n <= |order| && RestUnchanged(t, admin.State(), app)
      invariant ChannelsCopied(t, admin.State(), app, order, channelIds, n) && IdMap(ids, order, channelIds, n)
      invariant sound ==> ok && Copying(t, admin.State(), app, source, order, channelIds)
      decreases |order| - n, ok
    {
      ghost var before := admin.State();
      var copied;
      ok, copied := CopyChannel(admin, t, app, source, order, channelIds, n, ids, sound);
      if ok {
        ids := copied;
        n := n + 1;
      } else {
        assert admin.State() == before;
      }
    }
  }

  lemma NoChannelCopied(t: Tables, t': Tables, app: string, order: seq<string>, newIds: seq<string>)
    requires t'.channels == t.channels && forall x | x in order :: x in t.channels
    ensures ChannelsCopied(t, t', app, order, newIds, 0) && IdMap(map[], order, newIds, 0)
  {
  }

  lemma ChannelStillThere(t: Tables, t': Tables, app: string, order: seq<string>, newIds: seq<string>, n: nat)
    requires n < |order| == |newIds| && forall x | x in order :: x in t.channels
    requires ChannelsCopied(t, t', app, order, newIds, n)
    ensures order[n] in t'.channels && t'.channels[order[n]] == t.channels[order[n]]
  {
    assert order[n] in order;
  }

  lemma GroupStillThere(t: Tables, t': Tables, app: string, ids: map<string, string>, order: seq<string>,
      newIds: seq<string>, m: nat)
    requires m < |order| == |newIds| && forall x | x in order :: x in t.groups
    requires GroupsCopied(t, t', app, ids, order, newIds, m)
    ensures order[m] in t'.groups && t'.groups[order[m]] == t.groups[order[m]]
  {
    assert order[m] in order;
  }

  lemma CopyingGoesOn(t: Tables, t': Tables, t2: Tables, app: string, source: string, order: seq<string>,
      channelIds: seq<string>)
    requires RestUnchanged(t, t', app) ==> RestUnchanged(t, t2, app)
    ensures Copying(t, t', app, source, order, channelIds) ==> Copying(t, t2, app, source, order, channelIds)
  {
  }

  /** Copy the next group; `ok` is false when the insert was refused. */
  method CopyGroup(admin: Admin, ghost t: Tables, app: string, ids: map<string, string>, order: seq<string>,
      groupIds: seq<string>, m: nat)
    returns (ok: bool)
    requires (forall x | x in order :: x in t.groups) && m < |order| == |groupIds| && Unused(groupIds, t.groups.Keys)
    requires RestUnchanged(t, admin.State(), app) && GroupsCopied(t, admin.State(), app, ids, order, groupIds, m)
    modifies admin`groups
    ensures RestUnchanged(t, admin.State(), app) && order[m] in order
    ensures ok <==> Catalogue.AddGroup(old(admin.State()), groupIds[m],
                                       CopiedGroup(t.groups[order[m]], app, groupIds[m], ids)).error.None?
    ensures GroupsCopied(t, admin.State(), app, ids, order, groupIds, if ok then m + 1 else m)
  {
    ghost var before := admin.State();
    GroupStillThere(t, before, app, ids, order, groupIds, m);
    hide GroupsCopied, Unused, CopiedGroup;
    var group := CopiedGroup(admin.groups[order[m]], app, groupIds[m], ids);
    var error := admin.AddGroup(groupIds[m], group);
    if error.Some? {
      RefusedGroupChangesNothing(before, groupIds[m], group);
      return false;
    }
    GroupAdded(before, groupIds[m], group);
    hide Catalogue.AddGroup;
    TrackIsSet(before.groups[order[m]], app, groupIds[m], ids);
    GroupsCopiedNext(t, before, admin.State(), app, ids, order, groupIds, m);
    return true;
  }

  lemma RefusedGroupChangesNothing(t: Tables, id: string, row: GroupRow)
    requires Catalogue.AddGroup(t, id, row).error.Some?
    ensures Catalogue.AddGroup(t, id, row).tables == t
  {
  }

  /** The loop over the source's groups. */
  method CopyGroups(admin: Admin, ghost t: Tables, app: string, ghost source: string, ghost channelOrder: seq<string>,
                    ghost channelIds: seq<string>, ids: map<string, string>, order: seq<string>, groupIds: seq<string>,
                    budget: nat, ghost sound: bool) returns (m: nat)
    requires (forall x | x in order :: x in t.groups) && |groupIds| == |order| && Unused(groupIds, t.groups.Keys)
    requires RestUnchanged(t, admin.State(), app) && admin.groups == t.groups
    requires sound ==>
               && Copying(t, admin.State(), app, source, channelOrder, channelIds) && Lists(order, GroupsOf(t, source))
               && ChannelsCopied(t, admin.State(), app, channelOrder, channelIds, |channelOrder|)
               && IdMap(ids, channelOrder, channelIds, |channelOrder|)
    modifies admin`groups
    ensures m <= |order| && RestUnchanged(t, admin.State(), app)
    ensures GroupsCopied(t, admin.State(), app, ids, order, groupIds, m)
    ensures sound ==> m == Smaller(budget, |order|)
  {
    m := 0;
    NothingCopied(t, admin.State(), app, ids, order, groupIds);
    ghost var start := admin.State();
    hide Copying, Catalogue.AddGroup, CopiedGroup, Unused, IdMap, Lists, ChannelsCopied, GroupsCopied, RestUnchanged;
    var ok := true;
    while m < |order| && m < budget && ok
      invariant m <= budget && m <= |order| && admin.channels == start.channels
      invariant RestUnchanged(t, admin.State(), app) && GroupsCopied(t, admin.State(), app, ids, order, groupIds, m)
      invariant sound ==> ok
      decreases |order| - m, ok
    {
      if sound {
        CopyingGoesOn(t, start, admin.State(), app, source, channelOrder, channelIds);
        SameChannels(t, start, admin.State(), app, channelOrder, channelIds);
        NextGroupAccepted(t, admin.State(), app, source, channelOrder, channelIds, ids, order, groupIds, m);
      }
      ok := CopyGroup(admin, t, app, ids, order, groupIds, m);
      if ok {
        m := m + 1;
      }
    }
  }

  /**
   `AddAppCloning`. The two orders are the ones in which the source's rows are returned, `channelIds` and
   `groupIds` what the database assigns; `budget` is how many inserts it carries out before an outage.
   The report tells how far the copy got. A consistent catalogue gives the copy no other reason to stop.
   */
  method AddAppCloning(admin: Admin, app: string, row: AppRow, source: string, channelOrder: seq<string>,
                       groupOrder: seq<string>, channelIds: seq<string>, groupIds: seq<string>, budget: nat)
    returns (report: CloneReport)
    requires Lists(channelOrder, ChannelsOf(admin.State(), source))
             && Lists(groupOrder, GroupsOf(admin.State(), source))
    requires |channelIds| == |channelOrder| && Unused(channelIds, admin.channels.Keys)
    requires |groupIds| == |groupOrder| && Unused(groupIds, admin.groups.Keys)
    modifies admin`apps, admin`channels, admin`groups
    ensures (forall x | x in channelOrder :: x in old(admin.channels))
            && (forall x | x in groupOrder :: x in old(admin.groups))
    ensures report.error == Catalogue.AddApp(old(admin.State()), app, row).error
    ensures admin.apps == Catalogue.AddApp(old(admin.State()), app, row).tables.apps
    ensures report.error.Some? ==> admin.State() == old(admin.State())
    ensures report.error.None? ==>
              CopiedSoFar(old(admin.State()), admin.State(), app, channelOrder, groupOrder, channelIds, groupIds,
                          report.ids, report.channels, report.groups)
    ensures report.error.None? && Consistent(old(admin.State())) && NamesOk(old(admin.State()))
            && source in old(admin.apps)
            ==> report.channels + report.groups == Smaller(budget, |channelOrder| + |groupOrder|)
  {
    ghost var t := admin.State();
    SourceRows(t, source, channelOrder, groupOrder);
    var error := admin.AddApp(app, row);
    if error.Some? {
      return CloneReport(error, 0, 0, map[]);
    }
    if source !in admin.apps {
      return CloneReport(None, 0, 0, map[]);
    }
    ghost var sound := Consistent(t) && NamesOk(t);
    assert sound ==> Copying(t, admin.State(), app, source, channelOrder, channelIds);
    hide Lists, Consistent, NamesOk, ChannelsCopied, GroupsCopied, IdMap, NoRepeats, Unused;
    ghost var start := admin.State();
    var n, ids := CopyChannels(admin, t, app, source, channelOrder, channelIds, budget, sound);
    if n < |channelOrder| {
      NothingCopied(t, admin.State(), app, ids, groupOrder, groupIds);
      return CloneReport(None, n, 0, ids);
    }
    CopyingGoesOn(t, start, admin.State(), app, source, channelOrder, channelIds);
    ghost var middle := admin.State();
    var m := CopyGroups(admin, t, app, source, channelOrder, channelIds, ids, groupOrder, groupIds, budget - n, sound);
    SameChannels(t, middle, admin.State(), app, channelOrder, channelIds);
    return CloneReport(None, n, m, ids);
  }

  lemma NothingCopied(t: Tables, t': Tables, app: string, ids: map<string, string>, order: seq<string>,
      newIds: seq<string>)
    requires t'.groups == t.groups && forall x | x in order :: x in t.groups
    ensures GroupsCopied(t, t', app, ids, order, newIds, 0)
  {
  }

  lemma SameChannels(t: Tables, t': Tables, t2: Tables, app: string, order: seq<string>, newIds: seq<string>)
    requires t'.channels == t2.channels && |order| == |newIds| && forall x | x in order :: x in t.channels
    requires ChannelsCopied(t, t', app, order, newIds, |order|)
    ensures ChannelsCopied(t, t2, app, order, newIds, |order|)
  {
  }

  // ----- the result -----

  lemma ChannelCopiedAt(t: Tables, t': Tables, app: string, order: seq<string>, newIds: seq<string>, n: nat, i: nat)
    requires i < n <= |order| && n <= |newIds| && forall x | x in order :: x in t.channels
    requires ChannelsCopied(t, t', app, order, newIds, n)
    ensures order[i] in order && newIds[i] in t'.channels
    ensures t'.channels[newIds[i]] == CopiedChannel(t.channels[order[i]], app)
  {
    assert order[i] in order && newIds[..n][i] == newIds[i];
  }

  lemma IdMapIndex(ids: map<string, string>, order: seq<string>, newIds: seq<string>, n: nat, c: string)
    returns (i: nat)
    requires n <= |order| && n <= |newIds| && IdMap(ids, order, newIds, n) && c in ids
    ensures i < n && order[i] == c && ids[c] == newIds[i]
  {
    i :| 0 <= i < n && order[..n][i] == c;
  }

  lemma {:induction false} IdMapIsInjective(order: seq<string>, newIds: seq<string>, ids: map<string, string>,
      c: string, d: string)
    requires |newIds| == |order| && NoRepeats(newIds) && IdMap(ids, order, newIds, |order|)
    requires c in ids && d in ids && c != d
    ensures ids[c] != ids[d]
  {
    var i := IdMapIndex(ids, order, newIds, |order|, c);
    var j := IdMapIndex(ids, order, newIds, |order|, d);
    hide IdMap;
  }

  lemma {:induction false} IdMapImage(t: Tables, t': Tables, app: string, order: seq<string>, newIds: seq<string>,
                                      ids: map<string, string>, c: string)
    requires |newIds| == |order| && forall x | x in order :: x in t.channels
    requires ChannelsCopied(t, t', app, order, newIds, |order|) && IdMap(ids, order, newIds, |order|)
    requires c in ids
    ensures c in t.channels && ids[c] in t'.channels && t'.channels[ids[c]] == CopiedChannel(t.channels[c], app)
  {
    hide CopiedChannel, IdMap, ChannelsCopied;
    var i := IdMapIndex(ids, order, newIds, |order|, c);
    ChannelCopiedAt(t, t', app, order, newIds, |order|, i);
  }

  lemma {:induction false} IdMapIsOnto(t: Tables, t': Tables, app: string, order: seq<string>, newIds: seq<string>,
                                       ids: map<string, string>, d: string)
    requires |newIds| == |order| && forall x | x in order :: x in t.channels
    requires ChannelsCopied(t, t', app, order, newIds, |order|) && IdMap(ids, order, newIds, |order|)
    requires d in t'.channels && d !in t.channels
    ensures exists c | c in ids :: ids[c] == d
  {
    var i := CopiedId(t, t', app, order, newIds, d);
    hide ChannelsCopied;
    assert order[i] in ids && ids[order[i]] == d;
  }

  /** A channel that was not there before is one of the copies. */
  lemma CopiedId(t: Tables, t': Tables, app: string, order: seq<string>, newIds: seq<string>, d: string)
    returns (i: nat)
    requires |newIds| == |order| && (forall x | x in order :: x in t.channels)
    requires ChannelsCopied(t, t', app, order, newIds, |order|) && d in t'.channels && d !in t.channels
    ensures i < |newIds| && newIds[i] == d
  {
    hide CopiedChannel;
    assert newIds[..|order|] == newIds && d in newIds[..|order|];
    i :| 0 <= i < |newIds| && newIds[i] == d;
  }

  lemma {:induction false} IdMapIsBijection(t: Tables, t': Tables, app: string, source: string, order: seq<string>,
                                            newIds: seq<string>, ids: map<string, string>)
    requires Consistent(t) && app !in t.apps && Lists(order, ChannelsOf(t, source))
    requires |newIds| == |order| && Unused(newIds, t.channels.Keys)
    requires ChannelsCopied(t, t', app, order, newIds, |order|) && IdMap(ids, order, newIds, |order|)
    ensures ids.Keys == ChannelsOf(t, source)
    ensures forall c, d | c in ids && d in ids && c != d :: ids[c] != ids[d]
    ensures forall c | c in ids :: ids[c] in t'.channels && t'.channels[ids[c]] == CopiedChannel(t.channels[c], app)
    ensures forall d | d in t'.channels && t'.channels[d].app == app :: exists c | c in ids :: ids[c] == d
  {
    assert order[..|order|] == order;
    NewAppIsEmpty(t, app);
    assert forall d | d in t'.channels && t'.channels[d].app == app :: d !in t.channels;
    hide Consistent, CopiedChannel, ChannelsCopied;
    forall c, d | c in ids && d in ids && c != d
      ensures ids[c] != ids[d]
    {
      IdMapIsInjective(order, newIds, ids, c, d);
    }
    forall c | c in ids
      ensures ids[c] in t'.channels && t'.channels[ids[c]] == CopiedChannel(t.channels[c], app)
    {
      IdMapImage(t, t', app, order, newIds, ids, c);
    }
    forall d | d in t'.channels && t'.channels[d].app == app
      ensures exists c | c in ids :: ids[c] == d
    {
      IdMapIsOnto(t, t', app, order, newIds, ids, d);
    }
  }

  lemma {:induction false} CopiedGroupSubscribes(t: Tables, app: string, source: string, g: string, id: string,
      ids: map<string, string>)
    requires Consistent(t) && g in GroupsOf(t, source) && ids.Keys == ChannelsOf(t, source)
    ensures match t.groups[g].channel
            case None => CopiedGroup(t.groups[g], app, id, ids).channel == None
            case Some(c) => c in ids && CopiedGroup(t.groups[g], app, id, ids).channel == Some(ids[c])
  {
    assert GroupOk(t, g);
  }

  /**
   A complete copy is isomorphic to its source: the id map is a bijection between the channels of the two
   applications, a copied group subscribes to the image of its original's channel, and copied channels
   offer no package. The source, like everything else that was there, is unchanged.
   */
  lemma {:induction false} CompleteCopyIsIsomorphic(t: Tables, t': Tables, app: string, source: string,
      channelOrder: seq<string>, groupOrder: seq<string>, channelIds: seq<string>, groupIds: seq<string>,
      ids: map<string, string>)
    requires Consistent(t) && app !in t.apps
    requires Lists(channelOrder, ChannelsOf(t, source)) && Lists(groupOrder, GroupsOf(t, source))
    requires |channelIds| == |channelOrder| && Unused(channelIds, t.channels.Keys)
    requires |groupIds| == |groupOrder| && Unused(groupIds, t.groups.Keys)
    requires CopiedSoFar(t, t', app, channelOrder, groupOrder, channelIds, groupIds, ids, |channelOrder|, |groupOrder|)
    ensures ids.Keys == ChannelsOf(t, source)
    ensures forall c, d | c in ids && d in ids && c != d :: ids[c] != ids[d]
    ensures forall c | c in ids :: ids[c] in t'.channels && t'.channels[ids[c]] == CopiedChannel(t.channels[c], app)
    ensures forall d | d in t'.channels && t'.channels[d].app == app :: exists c | c in ids :: ids[c] == d
    ensures forall j | 0 <= j < |groupOrder| :: SubscribesAlike(t, t', groupOrder[j], groupIds[j], app, ids)
    ensures forall g | g in t'.groups && g !in t.groups :: exists j | 0 <= j < |groupOrder| :: groupIds[j] == g
    ensures forall c | c in t.channels :: c in t'.channels && t'.channels[c] == t.channels[c]
    ensures forall g | g in t.groups :: g in t'.groups && t'.groups[g] == t.groups[g]
  {
    IdMapIsBijection(t, t', app, source, channelOrder, channelIds, ids);
    hide IdMap, Unused, CopiedGroup, Consistent;
    assert groupIds[..|groupOrder|] == groupIds;
    forall j | 0 <= j < |groupOrder|
      ensures SubscribesAlike(t, t', groupOrder[j], groupIds[j], app, ids)
    {
      assert groupOrder[j] in groupOrder && groupIds[j] in groupIds;
      CopyIsAlike(t, t', app, source, groupOrder[j], groupIds[j], ids);
    }
  }

  lemma CopyIsAlike(t: Tables, t': Tables, app: string, source: string, g: string, id: string, ids: map<string, string>)
    requires Consistent(t) && g in GroupsOf(t, source) && ids.Keys == ChannelsOf(t, source)
    requires id in t'.groups && t'.groups[id] == CopiedGroup(t.groups[g], app, id, ids)
    ensures SubscribesAlike(t, t', g, id, app, ids)
  {
    CopiedGroupSubscribes(t, app, source, g, id, ids);
  }

  /** Group `id` is the copy of group `g` in `app`: same name, channel translated, updates enabled. */
  predicate SubscribesAlike(t: Tables, t': Tables, g: string, id: string, app: string, ids: map<string, string>) {
    && g in t.groups && id in t'.groups
    && t'.groups[id].app == app && t'.groups[id].name == t.groups[g].name && t'.groups[id].updatesEnabled
    && t'.groups[id].track == OrId(t.groups[g].track, id)
    && match t.groups[g].channel
       case None => t'.groups[id].channel == None
       case Some(c) => c in ids && t'.groups[id].channel == Some(ids[c])
  }
}
