/** The GitHub authenticator's two maps, updated in place by logins and webhooks. */
module GithubSessions {
  import opened Wrappers
  import opened GithubIndex

  lemma OneMoreDone(sessions: SessionMap, todo: set<string>, id: string)
    requires id in todo && todo <= sessions.Keys
    ensures id !in sessions - todo && sessions - (todo - {id}) == (sessions - todo)[id := sessions[id]]
    ensures sessions.Keys - (todo - {id}) == sessions.Keys - todo + {id}
  {
  }

  class GithubAuth {
    var userSessionIDs: map<string, SessionMap>
    var teamToUsers: map<string, set<string>>

    function State(): Index
      reads this
    {
      Index(userSessionIDs, teamToUsers)
    }

    constructor ()
      ensures State() == EMPTY
    {
      userSessionIDs, teamToUsers := map[], map[];
    }

    method AddSessionID(user: string, id: string, td: TeamData)
      modifies this
      ensures State() == Add(old(State()), user, id, td)
    {
      var sessionIDs: SessionMap := map[];
      if user in userSessionIDs {
        sessionIDs := userSessionIDs[user];
      }
      userSessionIDs := userSessionIDs[user := sessionIDs[id := td]];
      if td.team.Some? {
        var teamName := TeamName(td.org, td.team.value);
        var users: set<string> := {};
        if teamName in teamToUsers {
          users := teamToUsers[teamName];
        }
        teamToUsers := teamToUsers[teamName := users + {user}];
      }
    }

    /** Take a user off a team; a team without users is removed. */
    method RemoveFromTeam(teamName: string, user: string)
      modifies this`teamToUsers
      ensures teamToUsers == Unlisted(old(teamToUsers), teamName, user)
    {
      if teamName in teamToUsers {
        var usersSet := teamToUsers[teamName] - {user};
        if |usersSet| == 0 {
          teamToUsers := teamToUsers - {teamName};
        } else {
          teamToUsers := teamToUsers[teamName := usersSet];
        }
      }
    }

    /** Put back what is left of a user's sessions; a user without sessions is removed. */
    method StoreSessions(user: string, sessionIDs: SessionMap)
      modifies this`userSessionIDs
      ensures userSessionIDs == Stored(old(userSessionIDs), user, sessionIDs)
    {
      if |sessionIDs| == 0 {
        userSessionIDs := userSessionIDs - {user};
      } else {
        userSessionIDs := userSessionIDs[user := sessionIDs];
      }
    }

    method CleanupSession(user: Option<string>, id: string)
      modifies this
      ensures State() == Cleanup(old(State()), user, id)
    {
      if user.None? || user.value !in userSessionIDs {
        return;
      }
      var sessionIDs := userSessionIDs[user.value];
      if id in sessionIDs {
        var td := sessionIDs[id];
        if td.team.Some? {
          RemoveFromTeam(TeamName(td.org, td.team.value), user.value);
        }
        StoreSessions(user.value, sessionIDs - {id});
      }
    }

    /** The loop over a user's sessions: collect the ids and take the user off the teams. */
    method CollectAndUnlist(user: string, sessions: SessionMap) returns (ids: set<string>)
      modifies this`teamToUsers
      ensures ids == sessions.Keys && teamToUsers == UnlistedAll(old(teamToUsers), sessions, user)
    {
      ids := {};
      var todo := sessions.Keys;
      NothingUnlisted(teamToUsers, user);
      assert sessions - sessions.Keys == map[];
      hide UnlistedAll, Unlisted;
      while exists id :: id in todo
        invariant todo <= sessions.Keys && ids == sessions.Keys - todo
        invariant teamToUsers == UnlistedAll(old(teamToUsers), sessions - todo, user)
        decreases |todo|
      {
        var id :| id in todo;
        var td := sessions[id];
        OneMoreDone(sessions, todo, id);
        UnlistOneMore(old(teamToUsers), sessions - todo, user, id, td);
        todo := todo - {id};
        ids := ids + {id};
        if td.team.Some? {
          RemoveFromTeam(TeamName(td.org, td.team.value), user);
        }
      }
      assert sessions - todo == sessions;
    }

    /** All sessions of the user, which leave the index. */
    method StealUserSessionIDs(user: string) returns (ids: set<string>)
      modifies this
      ensures State() == StealUser(old(State()), user)
      ensures ids == SessionsOf(old(State()), user).Keys
    {
      ids := {};
      if user in userSessionIDs {
        ids := CollectAndUnlist(user, userSessionIDs[user]);
        userSessionIDs := userSessionIDs - {user};
      }
    }

    /** The user's sessions that the organization itself granted. */
    method StealUserSessionIDsForOrg(user: string, org: string) returns (ids: set<string>)
      modifies this
      ensures State() == StealUserOrg(old(State()), user, org)
      ensures ids == OrgSessions(SessionsOf(old(State()), user), org)
    {
      ids := {};
      if user !in userSessionIDs {
        return;
      }
      var sessions := userSessionIDs[user];
      ids := Matching(sessions, TeamData(org, None));
      StoreSessions(user, sessions - ids);
    }

    /** The user's sessions of one team, which the user then leaves. */
    method StealUserSessionIDsForOrgAndTeam(user: string, org: string, team: string) returns (ids: set<string>)
      modifies this
      ensures State() == StealUserTeam(old(State()), user, org, team)
      ensures ids == TeamSessions(SessionsOf(old(State()), user), org, team)
    {
      ids := {};
      if user !in userSessionIDs {
        return;
      }
      var sessions := userSessionIDs[user];
      ids := Matching(sessions, TeamData(org, Some(team)));
      // The loop takes the user off the team once per session found; once is enough.
      if |ids| > 0 {
        RemoveFromTeam(TeamName(org, team), user);
      }
      StoreSessions(user, sessions - ids);
    }

    /** The team's sessions of every user listed under the team; the team leaves the index. */
    method StealSessionIDsForOrgAndTeam(org: string, team: string) returns (owned: set<(string, string)>)
      modifies this
      ensures State() == StealTeam(old(State()), org, team)
      ensures owned == StolenByTeam(old(State()), org, team)
    {
      owned := {};
      var teamName := TeamName(org, team);
      var todo: set<string> := {};
      if teamName in teamToUsers {
        todo := teamToUsers[teamName];
      }
      ghost var ix, done := State(), {};
      NobodyVisited(ix, org, team);
      hide Visited, StolenByTeam, StealTeam, Stored;
      while exists user :: user in todo
        invariant done + todo == Listed(ix.teams, teamName) && done !! todo && teamToUsers == ix.teams
        invariant Visited(ix, userSessionIDs, owned, done, org, team)
        decreases |todo|
      {
        var user :| user in todo;
        todo := todo - {user};
        VisitOne(ix, userSessionIDs, owned, done, user, org, team);
        done := done + {user};
        if user in userSessionIDs {
          var sessions := userSessionIDs[user];
          var ids := Matching(sessions, TeamData(org, Some(team)));
          owned := owned + set id | id in ids :: (user, id);
          StoreSessions(user, sessions - ids);
        }
      }
      assert done == Listed(ix.teams, teamName);
      AllVisited(ix, userSessionIDs, owned, org, team);
      teamToUsers := teamToUsers - {teamName};
    }
  }

  /** The sessions of one user with the given organization and team. */
  method Matching(sessions: SessionMap, td: TeamData) returns (ids: set<string>)
    ensures ids == set id | id in sessions && sessions[id] == td
  {
    ids := {};
    var todo := sessions.Keys;
    while exists id :: id in todo
      invariant todo <= sessions.Keys
      invariant ids == set id | id in sessions && id !in todo && sessions[id] == td
      decreases |todo|
    {
      var id :| id in todo;
      todo := todo - {id};
      if sessions[id] == td {
        ids := ids + {id};
      }
    }
  }

  /** What is left of a user's sessions after the users `done` have been visited. */
  function Kept(ix: Index, done: set<string>, user: string, org: string, team: string): SessionMap
    requires user in ix.users
  {
    if user in done then ix.users[user] - TeamSessions(ix.users[user], org, team) else ix.users[user]
  }

  /** The users and the stolen sessions after the users `done` have been visited. */
  ghost predicate Visited(ix: Index, users: map<string, SessionMap>, owned: set<(string, string)>, done: set<string>,
      org: string, team: string) {
    && (forall u :: u in users <==> u in ix.users && (u in done ==> Kept(ix, done, u, org, team) != map[]))
    && (forall u | u in users :: users[u] == Kept(ix, done, u, org, team))
    && (forall u, id :: (u, id) in owned <==> u in done && u in ix.users && id in TeamSessions(ix.users[u], org, team))
  }

  lemma NobodyVisited(ix: Index, org: string, team: string)
    ensures Visited(ix, ix.users, {}, {}, org, team)
  {
  }

  lemma {:induction false} VisitOne(ix: Index, users: map<string, SessionMap>, owned: set<(string, string)>,
      done: set<string>, user: string, org: string, team: string)
    requires Visited(ix, users, owned, done, org, team) && user !in done
    ensures user !in users ==> Visited(ix, users, owned, done + {user}, org, team)
    ensures user in users ==>
              var ids := TeamSessions(users[user], org, team);
              Visited(ix, Stored(users, user, users[user] - ids), owned + (set id | id in ids :: (user, id)),
                  done + {user}, org, team)
  {
    if user in users {
      assert user in ix.users && users[user] == ix.users[user];
    }
  }

  lemma {:induction false} AllVisited(ix: Index, users: map<string, SessionMap>, owned: set<(string, string)>,
      org: string, team: string)
    requires Visited(ix, users, owned, Listed(ix.teams, TeamName(org, team)), org, team)
    ensures users == StealTeam(ix, org, team).users && owned == StolenByTeam(ix, org, team)
  {
    var after := StealTeam(ix, org, team).users;
    assert forall u :: u in users <==> u in after;
    assert forall u | u in users :: users[u] == after[u];
    forall x
      ensures x in owned <==> x in StolenByTeam(ix, org, team)
    {
      var (u, id) := x;
      assert (u, id) in owned <==> (u, id) in StolenByTeam(ix, org, team);
    }
  }

  lemma NothingUnlisted(teams: map<string, set<string>>, user: string)
    ensures UnlistedAll(teams, map[], user) == teams
  {
  }

  /** Taking the user off one more team. */
  lemma {:induction false} UnlistOneMore(teams: map<string, set<string>>, done: SessionMap, user: string, id: string,
      td: TeamData)
    requires id !in done
    ensures UnlistedAll(teams, done[id := td], user)
            == if td.team.None? then UnlistedAll(teams, done, user)
               else Unlisted(UnlistedAll(teams, done, user), TeamName(td.org, td.team.value), user)
  {
    forall n
      ensures SomeOfTeam(done[id := td], n) <==> SomeOfTeam(done, n) || OfTeam(td, n)
    {
      OneSessionMore(done, id, td, n);
    }
    hide SomeOfTeam;
    var before, after := UnlistedAll(teams, done, user), UnlistedAll(teams, done[id := td], user);
    assert forall n | n in teams :: (teams[n] - {user}) - {user} == teams[n] - {user};
    var expected := if td.team.None? then before else Unlisted(before, TeamName(td.org, td.team.value), user);
    assert forall n :: n in after <==> n in expected;
    assert forall n | n in after :: after[n] == expected[n];
  }
}
