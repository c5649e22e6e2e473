/**
 The index of GitHub sessions: which sessions a user has, with the organization and team that granted
 each, and which users have a session through a team. Webhooks look sessions up in it to end them.
 Class `GithubAuth` of `GithubSessions` keeps the index in two nested maps.
 */
module GithubIndex {
  import opened Wrappers

  datatype TeamData = TeamData(org: string, team: Option<string>)

  type SessionMap = map<string, TeamData>

  datatype Index = Index(users: map<string, SessionMap>, teams: map<string, set<string>>)

  /** `makeTeamName`. */
  function TeamName(org: string, team: string): string {
    org + "/" + team
  }

  predicate OfTeam(td: TeamData, name: string) {
    td.team.Some? && TeamName(td.org, td.team.value) == name
  }

  // ----- the operations -----

  function Listed(teams: map<string, set<string>>, name: string): set<string> {
    if name in teams then teams[name] else {}
  }

  function Unlisted(teams: map<string, set<string>>, name: string, user: string): map<string, set<string>> {
    if name !in teams then teams
    else if teams[name] - {user} == {} then teams - {name}
    else teams[name := teams[name] - {user}]
  }

  /** A user's sessions as they are stored: a user without sessions is not stored. */
  function Stored(users: map<string, SessionMap>, user: string, sessions: SessionMap): map<string, SessionMap> {
    if sessions == map[] then users - {user} else users[user := sessions]
  }

  function SessionsOf(ix: Index, user: string): SessionMap {
    if user in ix.users then ix.users[user] else map[]
  }

  /** `addSessionID`. */
  function Add(ix: Index, user: string, id: string, td: TeamData): Index {
    Index(ix.users[user := SessionsOf(ix, user)[id := td]],
          if td.team.None? then ix.teams
          else var name := TeamName(td.org, td.team.value); ix.teams[name := Listed(ix.teams, name) + {user}])
  }

  /** `cleanupSession`; `user` is None when the session carries no user name. */
  function Cleanup(ix: Index, user: Option<string>, id: string): Index {
    if user.None? || user.value !in ix.users || id !in ix.users[user.value] then ix
    else
      var td := ix.users[user.value][id];
      Index(Stored(ix.users, user.value, ix.users[user.value] - {id}),
            if td.team.None? then ix.teams else Unlisted(ix.teams, TeamName(td.org, td.team.value), user.value))
  }

  predicate SomeOfTeam(sessions: SessionMap, name: string) {
    exists id | id in sessions :: OfTeam(sessions[id], name)
  }

  /** The teams after `user` has been taken off each team one of `sessions` belongs to. */
  function UnlistedAll(teams: map<string, set<string>>, sessions: SessionMap, user: string): map<string, set<string>> {
    map name | name in teams && (SomeOfTeam(sessions, name) ==> teams[name] - {user} != {}) ::
      if SomeOfTeam(sessions, name) then teams[name] - {user} else teams[name]
  }

  /** `stealUserSessionIDs`: all sessions of the user. */
  function StealUser(ix: Index, user: string): Index {
    if user !in ix.users then ix else Index(ix.users - {user}, UnlistedAll(ix.teams, ix.users[user], user))
  }

  function OrgSessions(sessions: SessionMap, org: string): set<string> {
    set id | id in sessions && sessions[id] == TeamData(org, None)
  }

  function TeamSessions(sessions: SessionMap, org: string, team: string): set<string> {
    set id | id in sessions && sessions[id] == TeamData(org, Some(team))
  }

  /** `stealUserSessionIDsForOrg`: the sessions granted by the organization itself. */
  function StealUserOrg(ix: Index, user: string, org: string): Index {
    if user !in ix.users then ix
    else Index(Stored(ix.users, user, ix.users[user] - OrgSessions(ix.users[user], org)), ix.teams)
  }

  /** `stealUserSessionIDsForOrgAndTeam`. */
  function StealUserTeam(ix: Index, user: string, org: string, team: string): Index {
    if user !in ix.users then ix
    else
      var gone := TeamSessions(ix.users[user], org, team);
      Index(Stored(ix.users, user, ix.users[user] - gone),
            if gone == {} then ix.teams else Unlisted(ix.teams, TeamName(org, team), user))
  }

  /** What the team-wide steal leaves of a user's sessions. */
  function Remaining(ix: Index, user: string, org: string, team: string): SessionMap
    requires user in ix.users
  {
    if user in Listed(ix.teams, TeamName(org, team)) then ix.users[user] - TeamSessions(ix.users[user], org, team)
    else ix.users[user]
  }

  /** `stealSessionIDsForOrgAndTeam`: the team's sessions of all users listed under the team. */
  function StealTeam(ix: Index, org: string, team: string): Index {
    Index(map user | user in ix.users
                     && (user in Listed(ix.teams, TeamName(org, team)) ==> Remaining(ix, user, org, team) != map[]) ::
            Remaining(ix, user, org, team),
          ix.teams - {TeamName(org, team)})
  }

  /** The sessions that the team-wide steal returns. */
  function StolenByTeam(ix: Index, org: string, team: string): set<(string, string)> {
    set user, id | user in ix.users && user in Listed(ix.teams, TeamName(org, team))
                   && id in ix.users[user] && ix.users[user][id] == TeamData(org, Some(team)) :: (user, id)
  }

  datatype Event =
    | Login(user: string, id: string, td: TeamData)
    | Logout(name: Option<string>, id: string)
    | Revoked(user: string)
    | LeftOrg(user: string, org: string)
    | LeftTeam(user: string, org: string, team: string)
    | TeamGone(org: string, team: string)

  function Apply(ix: Index, e: Event): Index {
    match e
    case Login(user, id, td) => Add(ix, user, id, td)
    case Logout(name, id) => Cleanup(ix, name, id)
    case Revoked(user) => StealUser(ix, user)
    case LeftOrg(user, org) => StealUserOrg(ix, user, org)
    case LeftTeam(user, org, team) => StealUserTeam(ix, user, org, team)
    case TeamGone(org, team) => StealTeam(ix, org, team)
  }

  const EMPTY := Index(map[], map[])

  function Exec(events: seq<Event>): Index {
    if events == [] then EMPTY else Apply(Exec(events[..|events| - 1]), events[|events| - 1])
  }

  // ----- what every run keeps -----

  /** A login brings a session id that the user does not have yet. */
  predicate NewId(ix: Index, e: Event) {
    e.Login? ==> e.id !in SessionsOf(ix, e.user)
  }

  predicate AddedOnce(events: seq<Event>) {
    events == [] || (AddedOnce(events[..|events| - 1]) && NewId(Exec(events[..|events| - 1]), events[|events| - 1]))
  }

  /** Nothing empty is stored, and a user listed under a team owns a session of that team. */
  ghost predicate Backed(ix: Index) {
    && (forall u | u in ix.users :: ix.users[u] != map[])
    && (forall n | n in ix.teams :: ix.teams[n] != {})
    && (forall n, u | n in ix.teams && u in ix.teams[n] :: SomeOfTeam(SessionsOf(ix, u), n))
  }

  lemma {:induction false} LoginKeepsBacked(ix: Index, user: string, id: string, td: TeamData)
    requires Backed(ix) && id !in SessionsOf(ix, user)
    ensures Backed(Add(ix, user, id, td))
  {
    var ix' := Add(ix, user, id, td);
    forall n, u | n in ix'.teams && u in ix'.teams[n]
      ensures SomeOfTeam(SessionsOf(ix', u), n)
    {
      if n in ix.teams && u in ix.teams[n] {
        var s :| s in SessionsOf(ix, u) && OfTeam(SessionsOf(ix, u)[s], n);
        assert s in SessionsOf(ix', u) && SessionsOf(ix', u)[s] == SessionsOf(ix, u)[s];
      } else {
        assert u == user && OfTeam(SessionsOf(ix', u)[id], n);
      }
    }
    assert forall u | u in ix'.users :: u != user ==> ix'.users[u] == ix.users[u];
    assert id in ix'.users[user];
  }

  /** Dropping sessions of one user keeps the index backed if the user leaves every team of a dropped session. */
  lemma {:induction false} DropKeepsBacked(ix: Index, ix': Index, user: string, gone: set<string>)
    requires Backed(ix) && user in ix.users && ix'.users == Stored(ix.users, user, ix.users[user] - gone)
    requires forall n | n in ix'.teams :: n in ix.teams && ix'.teams[n] != {} && ix'.teams[n] <= ix.teams[n]
    requires forall n, s | n in ix'.teams && s in gone && s in ix.users[user] && OfTeam(ix.users[user][s], n) ::
             user !in ix'.teams[n]
    ensures Backed(ix')
  {
    forall n, u | n in ix'.teams && u in ix'.teams[n]
      ensures SomeOfTeam(SessionsOf(ix', u), n)
    {
      var s :| s in SessionsOf(ix, u) && OfTeam(SessionsOf(ix, u)[s], n);
      if u == user {
        assert s !in gone;
        assert s in ix.users[user] - gone;
      }
      assert s in SessionsOf(ix', u) && OfTeam(SessionsOf(ix', u)[s], n);
    }
    assert forall u | u in ix'.users :: u != user ==> ix'.users[u] == ix.users[u];
  }

  lemma {:induction false} TeamGoneKeepsBacked(ix: Index, org: string, team: string)
    requires Backed(ix)
    ensures Backed(StealTeam(ix, org, team))
  {
    var ix' := StealTeam(ix, org, team);
    var name := TeamName(org, team);
    forall n, u | n in ix'.teams && u in ix'.teams[n]
      ensures SomeOfTeam(SessionsOf(ix', u), n)
    {
      var s :| s in SessionsOf(ix, u) && OfTeam(SessionsOf(ix, u)[s], n);
      assert n != name && s !in TeamSessions(ix.users[u], org, team);
      assert s in Remaining(ix, u, org, team);
      assert s in SessionsOf(ix', u) && OfTeam(SessionsOf(ix', u)[s], n);
    }
  }

  lemma {:induction false} RevokedKeepsBacked(ix: Index, user: string)
    requires Backed(ix)
    ensures Backed(StealUser(ix, user))
    ensures user !in StealUser(ix, user).users && forall n | n in StealUser(ix, user).teams ::
            user !in StealUser(ix, user).teams[n]
  {
    if user in ix.users {
      var ix' := StealUser(ix, user);
      var sessions := ix.users[user];
      assert sessions - sessions.Keys == map[];
      forall n | n in ix'.teams
        ensures user !in ix'.teams[n]
      {
        if user in ix.teams[n] {
          assert SomeOfTeam(sessions, n);
        }
      }
      DropKeepsBacked(ix, ix', user, sessions.Keys);
    } else {
      assert forall n | n in ix.teams && user in ix.teams[n] :: SomeOfTeam(SessionsOf(ix, user), n);
    }
  }

  lemma {:induction false} OtherEventsKeepBacked(ix: Index, e: Event)
    requires Backed(ix) && (e.Logout? || e.LeftOrg? || e.LeftTeam?)
    ensures Backed(Apply(ix, e))
  {
    match e
    case Logout(name, id) =>
      if name.Some? && name.value in ix.users && id in ix.users[name.value] {
        DropKeepsBacked(ix, Apply(ix, e), name.value, {id});
      }
    case LeftOrg(user, org) =>
      if user in ix.users {
        DropKeepsBacked(ix, Apply(ix, e), user, OrgSessions(ix.users[user], org));
      }
    case LeftTeam(user, org, team) =>
      if user in ix.users {
        DropKeepsBacked(ix, Apply(ix, e), user, TeamSessions(ix.users[user], org, team));
      }
    case _ =>
  }

  lemma {:induction false} EventKeepsBacked(ix: Index, e: Event)
    requires Backed(ix) && NewId(ix, e)
    ensures Backed(Apply(ix, e))
  {
    hide Backed;
    match e
    case Login(user, id, td) => LoginKeepsBacked(ix, user, id, td);
    case Revoked(user) => RevokedKeepsBacked(ix, user);
    case TeamGone(org, team) => TeamGoneKeepsBacked(ix, org, team);
    case _ => OtherEventsKeepBacked(ix, e);
  }

  /** With session ids added once, every run keeps the team map backed and free of empty maps. */
  lemma {:induction false} RunsKeepBacked(events: seq<Event>)
    requires AddedOnce(events)
    ensures Backed(Exec(events))
  {
    hide Apply, NewId;
    if events == [] {
      EmptyIsBacked();
    } else {
      hide Backed;
      RunsKeepBacked(events[..|events| - 1]);
      EventKeepsBacked(Exec(events[..|events| - 1]), events[|events| - 1]);
    }
  }

  lemma EmptyIsBacked()
    ensures Backed(EMPTY)
  {
  }

  /** After a user's authorization is revoked the user is in neither map. */
  lemma {:induction false} RevokedUserIsGone(events: seq<Event>, user: string)
    requires AddedOnce(events)
    ensures var ix := StealUser(Exec(events), user);
            user !in ix.users && forall n | n in ix.teams :: user !in ix.teams[n]
  {
    RunsKeepBacked(events);
    RevokedKeepsBacked(Exec(events), user);
  }

  // ----- one session per user and team -----

  /** A login through a team in which the user has no session yet. */
  predicate FirstOfTeam(ix: Index, e: Event) {
    e.Login? && e.td.team.Some? ==> !SomeOfTeam(SessionsOf(ix, e.user), TeamName(e.td.org, e.td.team.value))
  }

  predicate OneEach(events: seq<Event>) {
    events == [] || (OneEach(events[..|events| - 1])
                     && NewId(Exec(events[..|events| - 1]), events[|events| - 1])
                     && FirstOfTeam(Exec(events[..|events| - 1]), events[|events| - 1]))
  }

  predicate SameTeam(a: TeamData, b: TeamData) {
    a.team.Some? && b.team.Some? && TeamName(a.org, a.team.value) == TeamName(b.org, b.team.value)
  }

  predicate AtMostOne(sessions: SessionMap) {
    forall s, t | s in sessions && t in sessions && SameTeam(sessions[s], sessions[t]) :: s == t
  }

  predicate Plain(org: string) {
    '/' !in org
  }

  /**
   The two maps agree: a user is listed under a team exactly when one of its sessions, a single one, is of
   that team. Organization names have no slash, so that team names tell teams apart.
   */
  ghost predicate Agree(ix: Index) {
    && (forall u | u in ix.users :: AtMostOne(ix.users[u]))
    && (forall u, s | u in ix.users && s in ix.users[u] :: Plain(ix.users[u][s].org))
    && (forall n, u {:trigger u in Listed(ix.teams, n)} {:trigger SomeOfTeam(SessionsOf(ix, u), n)} ::
          u in Listed(ix.teams, n) <==> SomeOfTeam(SessionsOf(ix, u), n))
  }

  predicate PlainEvent(e: Event) {
    (e.Login? ==> Plain(e.td.org)) && (e.TeamGone? ==> Plain(e.org))
  }

  predicate PlainRun(events: seq<Event>) {
    forall e | e in events :: PlainEvent(e)
  }

  function FirstSlash(n: string): (k: nat)
    ensures k <= |n|
  {
    if n == [] || n[0] == '/' then 0 else 1 + FirstSlash(n[1..])
  }

  lemma {:induction false} OrgEndsAtSlash(org: string, team: string)
    requires Plain(org)
    ensures FirstSlash(TeamName(org, team)) == |org|
  {
    if org != "" {
      assert org[0] in org;
      assert TeamName(org, team)[1..] == TeamName(org[1..], team);
      OrgEndsAtSlash(org[1..], team);
    }
  }

  lemma {:induction false} TeamNamesTellApart(a: string, s: string, b: string, t: string)
    requires Plain(a) && Plain(b) && TeamName(a, s) == TeamName(b, t)
    ensures a == b && s == t
  {
    OrgEndsAtSlash(a, s);
    OrgEndsAtSlash(b, t);
    assert TeamName(a, s)[..|a|] == a && TeamName(b, t)[..|b|] == b;
    assert TeamName(a, s)[|a| + 1..] == s && TeamName(b, t)[|b| + 1..] == t;
  }

  lemma {:induction false} OneMoreStaysSingle(sessions: SessionMap, id: string, td: TeamData)
    requires AtMostOne(sessions) && id !in sessions
    requires td.team.Some? ==> !SomeOfTeam(sessions, TeamName(td.org, td.team.value))
    ensures AtMostOne(sessions[id := td])
  {
    assert td.team.Some? ==> forall s | s in sessions :: !OfTeam(sessions[s], TeamName(td.org, td.team.value));
  }

  lemma {:induction false} LoginKeepsAgree(ix: Index, user: string, id: string, td: TeamData)
    requires Agree(ix) && Plain(td.org) && id !in SessionsOf(ix, user) && FirstOfTeam(ix, Login(user, id, td))
    ensures Agree(Add(ix, user, id, td))
  {
    var ix' := Add(ix, user, id, td);
    var sessions := SessionsOf(ix, user);
    OneMoreStaysSingle(sessions, id, td);
    forall u | u in ix'.users
      ensures AtMostOne(ix'.users[u]) && forall s | s in ix'.users[u] :: Plain(ix'.users[u][s].org)
    {
      if u != user {
        assert AtMostOne(ix.users[u]);
      }
    }
    forall n, u
      ensures u in Listed(ix'.teams, n) <==> SomeOfTeam(SessionsOf(ix', u), n)
    {
      assert u in Listed(ix.teams, n) <==> SomeOfTeam(SessionsOf(ix, u), n);
      if u == user {
        OneSessionMore(sessions, id, td, n);
      }
    }
  }

  lemma {:induction false} OneSessionMore(sessions: SessionMap, id: string, td: TeamData, n: string)
    requires id !in sessions
    ensures SomeOfTeam(sessions[id := td], n) <==> SomeOfTeam(sessions, n) || OfTeam(td, n)
  {
    if SomeOfTeam(sessions, n) {
      var s :| s in sessions && OfTeam(sessions[s], n);
      assert s in sessions[id := td] && sessions[id := td][s] == sessions[s];
    }
    assert id in sessions[id := td];
  }

  /** Dropping sessions that are either of no team or the single ones of a team the user then leaves. */
  lemma {:induction false} DropKeepsAgree(ix: Index, ix': Index, user: string, gone: set<string>)
    requires Agree(ix) && user in ix.users && ix'.users == Stored(ix.users, user, ix.users[user] - gone)
    requires forall n, u {:trigger u in Listed(ix'.teams, n)} ::
               u in Listed(ix'.teams, n) <==>
               u in Listed(ix.teams, n)
                   && (u == user ==> !SomeOfTeam(map s | s in ix.users[user] && s in gone :: ix.users[user][s], n))
    ensures Agree(ix')
  {
    var dropped := map s | s in ix.users[user] && s in gone :: ix.users[user][s];
    forall n, u
      ensures u in Listed(ix'.teams, n) <==> SomeOfTeam(SessionsOf(ix', u), n)
    {
      assert u in Listed(ix.teams, n) <==> SomeOfTeam(SessionsOf(ix, u), n);
      if u == user {
        assert SessionsOf(ix', user) == ix.users[user] - gone;
        SplitSessions(ix.users[user], gone, n);
      }
    }
    forall u | u in ix'.users
      ensures AtMostOne(ix'.users[u])
    {
      assert AtMostOne(ix.users[u]);
    }
  }

  /** In a map with at most one session per team, a team is either among the dropped or among the kept sessions. */
  lemma {:induction false} SplitSessions(sessions: SessionMap, gone: set<string>, n: string)
    requires AtMostOne(sessions)
    ensures var dropped := map s | s in sessions && s in gone :: sessions[s];
            SomeOfTeam(sessions - gone, n) <==> SomeOfTeam(sessions, n) && !SomeOfTeam(dropped, n)
  {
    var dropped := map s | s in sessions && s in gone :: sessions[s];
    if SomeOfTeam(sessions, n) {
      var s :| s in sessions && OfTeam(sessions[s], n);
      assert forall t | t in sessions && OfTeam(sessions[t], n) :: SameTeam(sessions[s], sessions[t]);
      if s in gone {
        assert OfTeam(dropped[s], n);
      } else {
        assert s in sessions - gone && OfTeam((sessions - gone)[s], n);
      }
    }
    if SomeOfTeam(sessions - gone, n) {
      var s :| s in sessions - gone && OfTeam((sessions - gone)[s], n);
      assert s in sessions && OfTeam(sessions[s], n);
    }
  }

  lemma {:induction false} LogoutKeepsAgree(ix: Index, user: string, id: string)
    requires Agree(ix) && user in ix.users && id in ix.users[user]
    ensures Agree(Cleanup(ix, Some(user), id))
  {
    var ix' := Cleanup(ix, Some(user), id);
    var dropped := map s | s in ix.users[user] && s in {id} :: ix.users[user][s];
    forall n
      ensures SomeOfTeam(dropped, n) <==> OfTeam(ix.users[user][id], n)
    {
      assert id in dropped;
    }
    DropKeepsAgree(ix, ix', user, {id});
  }

  lemma {:induction false} LeftOrgKeepsAgree(ix: Index, user: string, org: string)
    requires Agree(ix) && user in ix.users
    ensures Agree(StealUserOrg(ix, user, org))
  {
    DropKeepsAgree(ix, StealUserOrg(ix, user, org), user, OrgSessions(ix.users[user], org));
  }

  lemma {:induction false} LeftTeamKeepsAgree(ix: Index, user: string, org: string, team: string)
    requires Agree(ix) && user in ix.users
    ensures Agree(StealUserTeam(ix, user, org, team))
  {
    var gone := TeamSessions(ix.users[user], org, team);
    var dropped := map s | s in ix.users[user] && s in gone :: ix.users[user][s];
    forall n
      ensures SomeOfTeam(dropped, n) <==> gone != {} && n == TeamName(org, team)
    {
      if gone != {} {
        var s :| s in gone;
        assert s in dropped;
      }
    }
    DropKeepsAgree(ix, StealUserTeam(ix, user, org, team), user, gone);
  }

  lemma {:induction false} RevokedKeepsAgree(ix: Index, user: string)
    requires Agree(ix) && user in ix.users
    ensures Agree(StealUser(ix, user))
  {
    var sessions := ix.users[user];
    var dropped := map s | s in sessions && s in sessions.Keys :: sessions[s];
    assert dropped == sessions;
    assert sessions - sessions.Keys == map[];
    DropKeepsAgree(ix, StealUser(ix, user), user, sessions.Keys);
  }

  lemma {:induction false} TeamGoneKeepsAgree(ix: Index, org: string, team: string)
    requires Agree(ix) && Plain(org)
    ensures Agree(StealTeam(ix, org, team))
  {
    var ix' := StealTeam(ix, org, team);
    var name := TeamName(org, team);
    forall u | u in ix'.users
      ensures AtMostOne(ix'.users[u]) && forall s | s in ix'.users[u] :: Plain(ix'.users[u][s].org)
    {
      assert AtMostOne(ix.users[u]);
    }
    forall n, u
      ensures u in Listed(ix'.teams, n) <==> SomeOfTeam(SessionsOf(ix', u), n)
    {
      assert u in Listed(ix.teams, n) <==> SomeOfTeam(SessionsOf(ix, u), n);
      assert u in Listed(ix.teams, name) <==> SomeOfTeam(SessionsOf(ix, u), name);
      if u in ix.users {
        TeamSessionsLeave(ix.users[u], org, team, n);
        assert SessionsOf(ix', u) == Remaining(ix, u, org, team);
      }
    }
  }

  lemma {:induction false} TeamSessionsLeave(sessions: SessionMap, org: string, team: string, n: string)
    requires Plain(org) && forall s | s in sessions :: Plain(sessions[s].org)
    ensures SomeOfTeam(sessions - TeamSessions(sessions, org, team), n) <==>
            SomeOfTeam(sessions, n) && n != TeamName(org, team)
  {
    var kept := sessions - TeamSessions(sessions, org, team);
    forall s | s in sessions && OfTeam(sessions[s], TeamName(org, team))
      ensures sessions[s] == TeamData(org, Some(team))
    {
      TeamNamesTellApart(sessions[s].org, sessions[s].team.value, org, team);
    }
    if SomeOfTeam(sessions, n) && n != TeamName(org, team) {
      var s :| s in sessions && OfTeam(sessions[s], n);
      assert s in kept && OfTeam(kept[s], n);
    }
    if SomeOfTeam(kept, n) {
      var s :| s in kept && OfTeam(kept[s], n);
      assert s in sessions && OfTeam(sessions[s], n);
    }
  }

  lemma {:induction false} EventKeepsAgree(ix: Index, e: Event)
    requires Agree(ix) && PlainEvent(e) && NewId(ix, e) && FirstOfTeam(ix, e)
    ensures Agree(Apply(ix, e))
  {
    hide Agree;
    match e
    case Login(user, id, td) => LoginKeepsAgree(ix, user, id, td);
    case Logout(name, id) =>
      if name.Some? && name.value in ix.users && id in ix.users[name.value] {
        LogoutKeepsAgree(ix, name.value, id);
      }
    case Revoked(user) =>
      if user in ix.users {
        RevokedKeepsAgree(ix, user);
      }
    case LeftOrg(user, org) =>
      if user in ix.users {
        LeftOrgKeepsAgree(ix, user, org);
      }
    case LeftTeam(user, org, team) =>
      if user in ix.users {
        LeftTeamKeepsAgree(ix, user, org, team);
      }
    case TeamGone(org, team) => TeamGoneKeepsAgree(ix, org, team);
  }

  /** With at most one session per user and team, every run keeps the two maps in agreement, both ways. */
  lemma {:induction false} RunsKeepAgree(events: seq<Event>)
    requires OneEach(events) && PlainRun(events)
    ensures Agree(Exec(events))
  {
    hide Apply, NewId, FirstOfTeam, PlainEvent;
    if events == [] {
      EmptyAgrees();
    } else {
      hide Agree;
      assert events[|events| - 1] in events;
      RunsKeepAgree(events[..|events| - 1]);
      EventKeepsAgree(Exec(events[..|events| - 1]), events[|events| - 1]);
    }
  }

  lemma EmptyAgrees()
    ensures Agree(EMPTY)
  {
  }

  // ----- the team-wide steal -----

  function SessionsOfTeam(ix: Index, org: string, team: string): set<(string, string)> {
    set user, id | user in ix.users && id in ix.users[user] && ix.users[user][id] == TeamData(org, Some(team)) ::
        (user, id)
  }

  /** The team-wide steal finds all sessions of the team exactly when every owner of one is listed under the team. */
  lemma {:induction false} StealFindsListed(ix: Index, org: string, team: string)
    ensures StolenByTeam(ix, org, team) == SessionsOfTeam(ix, org, team) <==>
            forall user | user in ix.users && TeamSessions(ix.users[user], org, team) != {} ::
                user in Listed(ix.teams, TeamName(org, team))
  {
    if StolenByTeam(ix, org, team) == SessionsOfTeam(ix, org, team) {
      forall user | user in ix.users && TeamSessions(ix.users[user], org, team) != {}
        ensures user in Listed(ix.teams, TeamName(org, team))
      {
        var id :| id in TeamSessions(ix.users[user], org, team);
        assert (user, id) in SessionsOfTeam(ix, org, team);
        assert (user, id) in StolenByTeam(ix, org, team);
      }
    } else {
      var user, id :| (user, id) in SessionsOfTeam(ix, org, team) && (user, id) !in StolenByTeam(ix, org, team);
      assert id in TeamSessions(ix.users[user], org, team);
    }
  }

  predicate Owns(ix: Index, user: string, org: string, team: string) {
    user in ix.users && TeamSessions(ix.users[user], org, team) != {}
  }

  /** This event is a login of the user through the team. */
  predicate LoginThrough(e: Event, user: string, org: string, team: string) {
    e.Login? && e.user == user && e.td == TeamData(org, Some(team))
  }

  /** This event cleans up a session of the user that is of the team. */
  predicate CleansUp(ix: Index, e: Event, user: string, org: string, team: string) {
    e.Logout? && e.name == Some(user) && user in ix.users && e.id in TeamSessions(ix.users[user], org, team)
  }

  /** Since the user's last login through the team, one of the user's sessions of the team was cleaned up. */
  predicate CleanedSinceLogin(events: seq<Event>, user: string, org: string, team: string) {
    if events == [] then false
    else
      var before, e := events[..|events| - 1], events[|events| - 1];
      && !LoginThrough(e, user, org, team)
      && (CleansUp(Exec(before), e, user, org, team) || CleanedSinceLogin(before, user, org, team))
  }

  predicate PlainSessions(ix: Index) {
    forall u, s | u in ix.users && s in ix.users[u] :: Plain(ix.users[u][s].org)
  }

  lemma {:induction false} EventKeepsPlain(ix: Index, e: Event)
    requires PlainSessions(ix) && PlainEvent(e)
    ensures PlainSessions(Apply(ix, e))
  {
    var ix' := Apply(ix, e);
    forall u, s | u in ix'.users && s in ix'.users[u]
      ensures Plain(ix'.users[u][s].org)
    {
      assert u in ix.users && s in ix.users[u] ==> Plain(ix.users[u][s].org);
    }
  }

  /** Names of different teams differ, so an event about one team does not unlist a user from another. */
  lemma OtherName(ix: Index, user: string, id: string, org: string, team: string)
    requires PlainSessions(ix) && Plain(org) && user in ix.users && id in ix.users[user]
    ensures OfTeam(ix.users[user][id], TeamName(org, team)) <==> ix.users[user][id] == TeamData(org, Some(team))
  {
    var td := ix.users[user][id];
    if td.team.Some? && TeamName(td.org, td.team.value) == TeamName(org, team) {
      TeamNamesTellApart(td.org, td.team.value, org, team);
    }
  }

  lemma {:induction false} OwnerOrgIsPlain(ix: Index, user: string, org: string, team: string)
    requires PlainSessions(ix) && Owns(ix, user, org, team)
    ensures Plain(org)
  {
    var id :| id in TeamSessions(ix.users[user], org, team);
    assert Plain(ix.users[user][id].org);
  }

  /**
   What one event does to an owner of a session of the team: a login through the team lists the user, cleaning
   up one of several sessions of the team unlists it, and nothing else that leaves a session changes the list.
   */
  lemma {:induction false} EventListsOwner(ix: Index, e: Event, user: string, org: string, team: string)
    requires PlainSessions(ix) && PlainEvent(e) && Owns(Apply(ix, e), user, org, team) && Plain(org)
    ensures var name := TeamName(org, team);
            && (LoginThrough(e, user, org, team) ==> user in Listed(Apply(ix, e).teams, name))
            && (CleansUp(ix, e, user, org, team) ==> user !in Listed(Apply(ix, e).teams, name))
            && (!LoginThrough(e, user, org, team) ==> Owns(ix, user, org, team))
            && (!LoginThrough(e, user, org, team) && !CleansUp(ix, e, user, org, team) ==>
                  (user in Listed(Apply(ix, e).teams, name) <==> user in Listed(ix.teams, name)))
  {
    match e
    case Login(u, id, td) => LoginListsOwner(ix, u, id, td, user, org, team);
    case Logout(name, id) => LogoutListsOwner(ix, name, id, user, org, team);
    case Revoked(u) => RevokedListsOwner(ix, u, user, org, team);
    case LeftOrg(u, o) => LeftOrgListsOwner(ix, u, o, user, org, team);
    case LeftTeam(u, o, t) => LeftTeamListsOwner(ix, u, o, t, user, org, team);
    case TeamGone(o, t) => TeamGoneListsOwner(ix, o, t, user, org, team);
  }

  lemma {:induction false} LoginListsOwner(ix: Index, u: string, id: string, td: TeamData, user: string, org: string,
      team: string)
    requires Owns(Add(ix, u, id, td), user, org, team) && Plain(org) && Plain(td.org)
    ensures var name, ix' := TeamName(org, team), Add(ix, u, id, td);
            if u == user && td == TeamData(org, Some(team)) then user in Listed(ix'.teams, name)
            else Owns(ix, user, org, team) && (user in Listed(ix'.teams, name) <==> user in Listed(ix.teams, name))
  {
    var ix' := Add(ix, u, id, td);
    if td.team.Some? && TeamName(td.org, td.team.value) == TeamName(org, team) {
      TeamNamesTellApart(td.org, td.team.value, org, team);
    }
    var s :| s in TeamSessions(ix'.users[user], org, team);
    assert u == user && s == id ==> td == TeamData(org, Some(team));
    assert !(u == user && s == id) ==> user in ix.users && s in TeamSessions(ix.users[user], org, team);
  }

  /** The sessions an owner has after an event that ends sessions, it had before. */
  lemma {:induction false} OwnedBefore(ix: Index, ix': Index, user: string, org: string, team: string)
    requires Owns(ix', user, org, team)
    requires user in ix.users && forall s | s in ix'.users[user] ::
               s in ix.users[user] && ix.users[user][s] == ix'.users[user][s]
    ensures Owns(ix, user, org, team)
  {
    var s :| s in TeamSessions(ix'.users[user], org, team);
    assert s in TeamSessions(ix.users[user], org, team);
  }

  lemma {:induction false} LogoutListsOwner(ix: Index, name: Option<string>, id: string, user: string, org: string,
      team: string)
    requires PlainSessions(ix) && Plain(org) && Owns(Cleanup(ix, name, id), user, org, team)
    ensures var ix' := Cleanup(ix, name, id);
            && Owns(ix, user, org, team)
            && (user in Listed(ix'.teams, TeamName(org, team)) <==>
                user in Listed(ix.teams, TeamName(org, team)) && !CleansUp(ix, Logout(name, id), user, org, team))
  {
    OwnedBefore(ix, Cleanup(ix, name, id), user, org, team);
    if name.Some? && name.value in ix.users && id in ix.users[name.value] {
      OtherName(ix, name.value, id, org, team);
    }
  }

  lemma {:induction false} RevokedListsOwner(ix: Index, u: string, user: string, org: string, team: string)
    requires Owns(StealUser(ix, u), user, org, team)
    ensures Owns(ix, user, org, team)
    ensures user in Listed(StealUser(ix, u).teams, TeamName(org, team)) <==>
            user in Listed(ix.teams, TeamName(org, team))
  {
    OwnedBefore(ix, StealUser(ix, u), user, org, team);
  }

  lemma {:induction false} LeftOrgListsOwner(ix: Index, u: string, o: string, user: string, org: string, team: string)
    requires Owns(StealUserOrg(ix, u, o), user, org, team)
    ensures Owns(ix, user, org, team) && StealUserOrg(ix, u, o).teams == ix.teams
  {
    OwnedBefore(ix, StealUserOrg(ix, u, o), user, org, team);
  }

  lemma {:induction false} LeftTeamListsOwner(ix: Index, u: string, o: string, t: string, user: string, org: string,
      team: string)
    requires PlainSessions(ix) && Plain(org) && Owns(StealUserTeam(ix, u, o, t), user, org, team)
    ensures var ix' := StealUserTeam(ix, u, o, t);
            && Owns(ix, user, org, team)
            && (user in Listed(ix'.teams, TeamName(org, team)) <==> user in Listed(ix.teams, TeamName(org, team)))
  {
    var ix' := StealUserTeam(ix, u, o, t);
    OwnedBefore(ix, ix', user, org, team);
    if u in ix.users && TeamSessions(ix.users[u], o, t) != {} {
      var id :| id in TeamSessions(ix.users[u], o, t);
      OtherName(ix, u, id, org, team);
      if u == user && TeamName(o, t) == TeamName(org, team) {
        var s :| s in TeamSessions(ix'.users[user], org, team);
        assert s in TeamSessions(ix.users[user], o, t);
      }
    }
  }

  lemma {:induction false} TeamGoneListsOwner(ix: Index, o: string, t: string, user: string, org: string, team: string)
    requires Plain(o) && Plain(org) && Owns(StealTeam(ix, o, t), user, org, team)
    ensures var ix' := StealTeam(ix, o, t);
            && Owns(ix, user, org, team)
            && (user in Listed(ix'.teams, TeamName(org, team)) <==> user in Listed(ix.teams, TeamName(org, team)))
  {
    var ix' := StealTeam(ix, o, t);
    OwnedBefore(ix, ix', user, org, team);
    if TeamName(o, t) == TeamName(org, team) {
      TeamNamesTellApart(o, t, org, team);
      var s :| s in TeamSessions(ix'.users[user], org, team);
      assert s in TeamSessions(ix.users[user], org, team);
    }
  }

  /**
   Over every run, a user who owns a session of the team is missing from the team's list exactly when one of the
   user's sessions of the team was cleaned up since the user's last login through the team.
   */
  lemma {:induction false} UnlistedIffCleaned(events: seq<Event>, user: string, org: string, team: string)
    requires PlainRun(events)
    ensures PlainSessions(Exec(events))
    ensures Owns(Exec(events), user, org, team) ==>
              (user !in Listed(Exec(events).teams, TeamName(org, team)) <==>
               CleanedSinceLogin(events, user, org, team))
  {
    if events != [] {
      var before, e := events[..|events| - 1], events[|events| - 1];
      assert e in events && forall x | x in before :: x in events;
      UnlistedIffCleaned(before, user, org, team);
      hide PlainSessions, PlainEvent, Apply, Owns, CleansUp, LoginThrough;
      EventKeepsPlain(Exec(before), e);
      if Owns(Exec(events), user, org, team) {
        OwnerOrgIsPlain(Exec(events), user, org, team);
        EventListsOwner(Exec(before), e, user, org, team);
      }
    }
  }

  /**
   Over every run, the team-wide steal finds all sessions of the team if and only if no owner of one had another
   session of the team cleaned up since the last login through the team.
   */
  lemma {:induction false} TeamStealIsCompleteIff(events: seq<Event>, org: string, team: string)
    requires PlainRun(events)
    ensures StolenByTeam(Exec(events), org, team) == SessionsOfTeam(Exec(events), org, team) <==>
            forall user | user in Exec(events).users && Owns(Exec(events), user, org, team) ::
              !CleanedSinceLogin(events, user, org, team)
  {
    var ix := Exec(events);
    StealFindsListed(ix, org, team);
    forall user | user in ix.users && Owns(ix, user, org, team)
      ensures user !in Listed(ix.teams, TeamName(org, team)) <==> CleanedSinceLogin(events, user, org, team)
    {
      UnlistedIffCleaned(events, user, org, team);
    }
    hide Exec, CleanedSinceLogin, PlainRun, StolenByTeam, SessionsOfTeam, TeamSessions, Listed;
  }

  /** With at most one session per user and team, it always does. */
  lemma {:induction false} TeamStealIsComplete(events: seq<Event>, org: string, team: string)
    requires OneEach(events) && PlainRun(events)
    ensures StolenByTeam(Exec(events), org, team) == SessionsOfTeam(Exec(events), org, team)
  {
    hide Exec, OneEach, PlainRun;
    var ix := Exec(events);
    RunsKeepAgree(events);
    StealFindsListed(ix, org, team);
    forall user | user in ix.users && TeamSessions(ix.users[user], org, team) != {}
      ensures user in Listed(ix.teams, TeamName(org, team))
    {
      var id :| id in TeamSessions(ix.users[user], org, team);
      assert OfTeam(SessionsOf(ix, user)[id], TeamName(org, team));
      assert SomeOfTeam(SessionsOf(ix, user), TeamName(org, team));
    }
  }

  lemma {:induction false} ExecNext(events: seq<Event>, e: Event, ix: Index)
    requires Exec(events) == ix
    ensures Exec(events + [e]) == Apply(ix, e)
  {
    assert (events + [e])[..|events|] == events;
  }

  /**
   A user with two sessions of one team who logs out of the first is no longer listed under the team: when
   the team is deleted, the second session survives.
   */
  lemma {:induction false} SecondSessionSurvives()
    ensures var td := TeamData("o", Some("t"));
            var events := [Login("u", "1", td)] + [Login("u", "2", td)] + [Logout(Some("u"), "1")];
            && AddedOnce(events)
            && StolenByTeam(Exec(events), "o", "t") == {}
            && SessionsOfTeam(StealTeam(Exec(events), "o", "t"), "o", "t") == {("u", "2")}
  {
    var td := TeamData("o", Some("t"));
    var name := TeamName("o", "t");
    var e1 := [Login("u", "1", td)];
    var e2 := e1 + [Login("u", "2", td)];
    var e3 := e2 + [Logout(Some("u"), "1")];
    var ix1 := Index(map["u" := map["1" := td]], map[name := {"u"}]);
    ExecNext([], e1[0], EMPTY);
    var none: SessionMap, nobody: set<string> := map[], {};
    assert none["1" := td] == map["1" := td] && nobody + {"u"} == {"u"};
    assert EMPTY.users["u" := none["1" := td]] == ix1.users && EMPTY.teams[name := nobody + {"u"}] == ix1.teams;
    assert [] + e1 == e1 && Apply(EMPTY, e1[0]) == ix1;
    var ix2 := Index(map["u" := map["1" := td, "2" := td]], map[name := {"u"}]);
    ExecNext(e1, e2[1], ix1);
    assert Apply(ix1, e2[1]) == ix2;
    ExecNext(e2, e3[2], ix2);
    var ix3 := Index(map["u" := map["2" := td]], map[]);
    assert map["1" := td, "2" := td] - {"1"} == map["2" := td] && {"u"} - {"u"} == nobody;
    assert ix2.users["u" := map["2" := td]] == ix3.users && ix2.teams - {name} == ix3.teams;
    assert "2" in map["2" := td];
    assert Unlisted(ix2.teams, name, "u") == ix3.teams && Stored(ix2.users, "u", map["2" := td]) == ix3.users;
    assert Apply(ix2, e3[2]) == ix3;
    assert e3[..2] == e2 && e2[..1] == e1 && e1[..0] == [];
    assert AddedOnce([]) && AddedOnce(e1) && AddedOnce(e2) && AddedOnce(e3);
    var ix4 := StealTeam(ix3, "o", "t");
    assert ix4.users == ix3.users;
    assert ("u", "2") in SessionsOfTeam(ix4, "o", "t");
  }
}
