/** The team service: validation order, error codes and repository effects of the team operations,
    over a map-backed team repository. A service built with a websocket service hands a
    "team_update" message to the hub; that message is returned as `event`. */
module TeamService {
  import opened Wrappers
  import opened DomainTeam
  import WebSocketService
  import PermissionService

  /** The team after UpdateTeam's assignments: an empty name or description keeps the stored one. */
  function UpdatedTeam(team: Team, name: string, description: string): Team {
    team.(name := if name != "" then name else team.name,
          description := if description != "" then description else team.description)
  }

  /** UpdateTeam changes only name and description, each only when its argument is non-empty, and
      applying the same update twice changes nothing more. */
  lemma UpdatedTeamEffects(team: Team, name: string, description: string)
    ensures var r := UpdatedTeam(team, name, description);
            && (name == "" ==> r.name == team.name) && (name != "" ==> r.name == name)
            && (description == "" ==> r.description == team.description)
            && (description != "" ==> r.description == description)
            && r.id == team.id && r.createdBy == team.createdBy
            && r.createdAt == team.createdAt && r.updatedAt == team.updatedAt
            && UpdatedTeam(r, name, description) == r
    ensures UpdatedTeam(team, "", "") == team
  {
  }

  /** The membership CreateTeam gives the creator. */
  function OwnerMembership(team: Team): TeamMember {
    TeamMember(team.id, team.createdBy, RoleOwner, team.createdAt)
  }

  /** The creator's membership makes them able to manage the team and everything it grants. */
  lemma CreatorManagesTeam(team: Team, members: map<(string, string), TeamMember>)
    requires team.id != "" && team.createdBy != ""
    requires (team.id, team.createdBy) in members && members[(team.id, team.createdBy)].role == RoleOwner
    ensures PermissionService.CanManageTeam(team.createdBy, team.id, members) == Pass
    ensures PermissionService.IsTeamOwner(team.createdBy, team.id, members) == Ok(true)
    ensures forall required: Role :: DomainTeam.HasPermission(members[(team.id, team.createdBy)], required)
  {
  }

  /** What ON DELETE CASCADE leaves when team `id` is deleted: exactly the memberships and the
      shares of the other teams, unchanged. */
  ghost predicate CascadedFrom(id: string, members0: map<(string, string), TeamMember>,
                               shared0: map<(string, string), string>,
                               members: map<(string, string), TeamMember>, shared: map<(string, string), string>)
  {
    && (forall k :: k in members <==> k in members0 && k.0 != id)
    && (forall k :: k in members ==> members[k] == members0[k])
    && (forall k :: k in shared <==> k in shared0 && k.1 != id)
    && (forall k :: k in shared ==> shared[k] == shared0[k])
  }

  /** After the cascade nobody holds any permission in the deleted team, and every other team's
      permissions are as before. */
  lemma DeletedTeamGrantsNothing(id: string, members0: map<(string, string), TeamMember>,
                                 shared0: map<(string, string), string>,
                                 members: map<(string, string), TeamMember>,
                                 shared: map<(string, string), string>,
                                 userId: string, teamId: string, permission: string)
    requires CascadedFrom(id, members0, shared0, members, shared)
    requires userId != "" && id != ""
    ensures PermissionService.CheckTeamPermission(userId, id, permission, members) == Fail(PermissionDenied)
    ensures teamId != id ==> PermissionService.CheckTeamPermission(userId, teamId, permission, members)
                             == PermissionService.CheckTeamPermission(userId, teamId, permission, members0)
  {
  }

  /** The team repository as maps: teams by id, memberships by (team, user), and shares by
      (todo, team) with who shared. Every membership and share names a stored team, as the
      foreign keys on team_id demand. */
  class TeamRepository {
    var teams: map<string, Team>
    var members: map<(string, string), TeamMember>
    var shared: map<(string, string), string>

    ghost predicate Valid()
      reads this
    {
      && (forall id :: id in teams ==> teams[id].id == id)
      && (forall k :: k in members ==> members[k].teamId == k.0 && members[k].userId == k.1)
      && (forall k :: k in members ==> k.0 in teams)
      && (forall k :: k in shared ==> k.1 in teams)
    }

    constructor ()
      ensures Valid() && teams == map[] && members == map[] && shared == map[]
    {
      teams := map[];
      members := map[];
      shared := map[];
    }

    /** Create inserts a team; a taken id is a failed insert. */
    method Create(team: Team) returns (r: Outcome)
      requires Valid()
      modifies this
      ensures Valid() && members == old(members) && shared == old(shared)
      ensures team.id in old(teams) ==> r == Fail(Unknown) && teams == old(teams)
      ensures team.id !in old(teams) ==> r == Pass && teams == old(teams)[team.id := team]
    {
      if team.id in teams {
        return Fail(Unknown);
      }
      teams := teams[team.id := team];
      r := Pass;
    }

    method GetById(id: string) returns (r: Result<Team>)
      ensures id in teams ==> r == Ok(teams[id])
      ensures id !in teams ==> r == Err(Unknown)
    {
      if id !in teams {
        return Err(Unknown);
      }
      r := Ok(teams[id]);
    }

    /** Update writes name, description and update time; no row is an error, and `fails` stands
        for a failed statement. */
    method Update(team: Team, fails: bool) returns (r: Outcome)
      requires Valid()
      modifies this
      ensures Valid() && members == old(members) && shared == old(shared)
      ensures fails || team.id !in old(teams) ==> r == Fail(Unknown) && teams == old(teams)
      ensures !fails && team.id in old(teams) ==> r == Pass && teams == old(teams)[team.id := old(teams[team.id]).(
                name := team.name, description := team.description, updatedAt := team.updatedAt)]
    {
      if fails || team.id !in teams {
        return Fail(Unknown);
      }
      teams := teams[team.id := teams[team.id].(name := team.name, description := team.description,
                                               updatedAt := team.updatedAt)];
      r := Pass;
    }

    /** Delete removes a team, and the cascade its memberships and shares; no row is an error, and
        `fails` stands for a failed statement. */
    method Delete(id: string, fails: bool) returns (r: Outcome)
      requires Valid()
      modifies this
      ensures Valid()
      ensures fails || id !in old(teams) ==> r == Fail(Unknown) && teams == old(teams)
                                             && members == old(members) && shared == old(shared)
      ensures !fails && id in old(teams) ==> r == Pass && teams == old(teams) - {id}
                                             && CascadedFrom(id, old(members), old(shared), members, shared)
    {
      if fails || id !in teams {
        return Fail(Unknown);
      }
      teams := teams - {id};
      members := map k | k in members && k.0 != id :: members[k];
      shared := map k | k in shared && k.1 != id :: shared[k];
      r := Pass;
    }

    /** AddMember inserts a membership, or on an existing (team, user) pair overwrites only its
      role. An absent team violates the foreign key; `fails` stands for any other failed
      statement, an absent user among its causes. */
    method AddMember(m: TeamMember, fails: bool) returns (r: Outcome)
      requires Valid()
      modifies this
      ensures Valid() && teams == old(teams) && shared == old(shared)
      ensures fails || m.teamId !in old(teams) ==> r == Fail(Unknown) && members == old(members)
      ensures !fails && m.teamId in old(teams) ==> r == Pass && members == old(members)[(m.teamId, m.userId) :=
                if (m.teamId, m.userId) in old(members) then old(members[(m.teamId, m.userId)]).(role := m.role) else m]
    {
      if fails || m.teamId !in teams {
        return Fail(Unknown);
      }
      var key := (m.teamId, m.userId);
      members := members[key := if key in members then members[key].(role := m.role) else m];
      r := Pass;
    }

    method GetMember(teamId: string, userId: string) returns (r: Result<TeamMember>)
      ensures (teamId, userId) in members ==> r == Ok(members[(teamId, userId)])
      ensures (teamId, userId) !in members ==> r == Err(Unknown)
    {
      if (teamId, userId) !in members {
        return Err(Unknown);
      }
      r := Ok(members[(teamId, userId)]);
    }

    /** RemoveMember; an absent pair is no error, and `fails` stands for a failed statement. */
    method RemoveMember(teamId: string, userId: string, fails: bool) returns (r: Outcome)
      requires Valid()
      modifies this
      ensures Valid() && teams == old(teams) && shared == old(shared)
      ensures fails ==> r == Fail(Unknown) && members == old(members)
      ensures !fails ==> r == Pass && members == old(members) - {(teamId, userId)}
    {
      if fails {
        return Fail(Unknown);
      }
      members := members - {(teamId, userId)};
      r := Pass;
    }

    /** UpdateMemberRole; no row is an error, and `fails` stands for a failed statement. */
    method UpdateMemberRole(teamId: string, userId: string, role: Role, fails: bool) returns (r: Outcome)
      requires Valid()
      modifies this
      ensures Valid() && teams == old(teams) && shared == old(shared)
      ensures fails || (teamId, userId) !in old(members) ==> r == Fail(Unknown) && members == old(members)
      ensures !fails && (teamId, userId) in old(members) ==> r == Pass && members == old(members)[(teamId, userId) :=
                old(members[(teamId, userId)]).(role := role)]
    {
      if fails || (teamId, userId) !in members {
        return Fail(Unknown);
      }
      members := members[(teamId, userId) := members[(teamId, userId)].(role := role)];
      r := Pass;
    }

    /** ShareTODO records or overwrites who shared the TODO with the team. An absent team
        violates the foreign key; `fails` stands for any other failed statement, an absent TODO
        or sharer (the other two foreign keys) among its causes. */
    method ShareTodo(todoId: string, teamId: string, sharedBy: string, fails: bool) returns (r: Outcome)
      requires Valid()
      modifies this
      ensures Valid() && teams == old(teams) && members == old(members)
      ensures fails || teamId !in old(teams) ==> r == Fail(Unknown) && shared == old(shared)
      ensures !fails && teamId in old(teams) ==> r == Pass && shared == old(shared)[(todoId, teamId) := sharedBy]
    {
      if fails || teamId !in teams {
        return Fail(Unknown);
      }
      shared := shared[(todoId, teamId) := sharedBy];
      r := Pass;
    }

    /** UnshareTODO; an absent pair is no error, and `fails` stands for a failed statement. */
    method UnshareTodo(todoId: string, teamId: string, fails: bool) returns (r: Outcome)
      requires Valid()
      modifies this
      ensures Valid() && teams == old(teams) && members == old(members)
      ensures fails ==> r == Fail(Unknown) && shared == old(shared)
      ensures !fails ==> r == Pass && shared == old(shared) - {(todoId, teamId)}
    {
      if fails {
        return Fail(Unknown);
      }
      shared := shared - {(todoId, teamId)};
      r := Pass;
    }
  }

  /** The broadcast a service with a websocket service makes. */
  function TeamEventFor(notify: bool, team: Team, action: string, now: Time): Option<WebSocketService.Message> {
    if notify then Some(WebSocketService.TeamUpdateEvent(team, action, now)) else None
  }

  class Service {
    const repo: TeamRepository
    /** Whether the service was built with a websocket service. */
    const notify: bool

    constructor (repo: TeamRepository, notify: bool)
      ensures this.repo == repo && this.notify == notify
    {
      this.repo := repo;
      this.notify := notify;
    }

    /** CreateTeam; `newId` and `now` stand for the fresh UUID and the clock, `ownerInsertFails`
        for a failure of the owner's membership insert and `cleanupFails` for a failure of the
        delete that then removes the team again, whose error is ignored. */
    method CreateTeam(name: string, description: string, createdBy: string, newId: string, now: Time,
                      ownerInsertFails: bool, cleanupFails: bool)
      returns (r: Result<Team>, event: Option<WebSocketService.Message>)
      requires repo.Valid()
      modifies repo
      ensures repo.Valid() && repo.shared == old(repo.shared)
      ensures name == "" ==> r == Err(InvalidArgument)
      ensures name != "" && createdBy == "" ==> r == Err(InvalidArgument)
      ensures name != "" && createdBy != "" && (newId in old(repo.teams) || ownerInsertFails) ==> r == Err(Internal)
      ensures name != "" && createdBy != "" && newId !in old(repo.teams) && !ownerInsertFails ==> r.Ok?
      // a failure leaves nothing behind, unless the compensating delete fails too
      ensures r.Err? ==> repo.members == old(repo.members) && event.None?
      ensures r.Err? ==> repo.teams == if name != "" && createdBy != "" && newId !in old(repo.teams) && cleanupFails
                                       then old(repo.teams)[newId := NewTeam(newId, name, description, createdBy, now)]
                                       else old(repo.teams)
      ensures r.Ok? ==>
                && r.value == NewTeam(newId, name, description, createdBy, now)
                && repo.teams == old(repo.teams)[newId := r.value]
                && (newId, createdBy) in repo.members && repo.members[(newId, createdBy)].role == RoleOwner
                && ((newId, createdBy) !in old(repo.members) ==>
                      repo.members == old(repo.members)[(newId, createdBy) := OwnerMembership(r.value)])
                && event == TeamEventFor(notify, r.value, "created", now)
    {
      event := None;
      if name == "" {
        return Err(InvalidArgument), None;
      }
      if createdBy == "" {
        return Err(InvalidArgument), None;
      }
      var team := NewTeam(newId, name, description, createdBy, now);
      var created := repo.Create(team);
      if created.Fail? {
        return Err(Internal), None;
      }
      var added := repo.AddMember(OwnerMembership(team), ownerInsertFails);
      if added.Fail? {
        var _ := repo.Delete(team.id, cleanupFails);
        return Err(Internal), None;
      }
      event := TeamEventFor(notify, team, "created", now);
      r := Ok(team);
    }

    /** GetTeam */
    method GetTeam(teamId: string) returns (r: Result<Team>)
      ensures teamId == "" ==> r == Err(InvalidArgument)
      ensures teamId != "" && teamId !in repo.teams ==> r == Err(NotFound)
      ensures teamId != "" && teamId in repo.teams ==> r == Ok(repo.teams[teamId])
    {
      if teamId == "" {
        return Err(InvalidArgument);
      }
      var found := repo.GetById(teamId);
      if found.Err? {
        return Err(NotFound);
      }
      r := Ok(found.value);
    }

    /** UpdateTeam: the stored team takes the non-empty arguments; its update time is written back
        as it was. `fails` stands for a failed write. */
    method UpdateTeam(teamId: string, name: string, description: string, now: Time, fails: bool)
      returns (r: Result<Team>, event: Option<WebSocketService.Message>)
      requires repo.Valid()
      modifies repo
      ensures repo.Valid() && repo.members == old(repo.members) && repo.shared == old(repo.shared)
      ensures teamId == "" ==> r == Err(InvalidArgument)
      ensures teamId != "" && teamId !in old(repo.teams) ==> r == Err(NotFound)
      ensures teamId != "" && teamId in old(repo.teams) ==>
                r == if fails then Err(Internal) else Ok(UpdatedTeam(old(repo.teams[teamId]), name, description))
      ensures r.Err? ==> repo.teams == old(repo.teams) && event.None?
      ensures r.Ok? ==> repo.teams == old(repo.teams)[teamId := r.value] && event == TeamEventFor(notify, r.value, "updated", now)
    {
      event := None;
      if teamId == "" {
        return Err(InvalidArgument), None;
      }
      var found := repo.GetById(teamId);
      if found.Err? {
        return Err(NotFound), None;
      }
      var team := UpdatedTeam(found.value, name, description);
      var saved := repo.Update(team, fails);
      if saved.Fail? {
        return Err(Internal), None;
      }
      event := TeamEventFor(notify, team, "updated", now);
      r := Ok(team);
    }

    /** DeleteTeam: the team goes with its memberships and shares; the broadcast carries the team
        as fetched before deletion. `fails` stands for a failed delete. */
    method DeleteTeam(teamId: string, now: Time, fails: bool) returns (r: Outcome, event: Option<WebSocketService.Message>)
      requires repo.Valid()
      modifies repo
      ensures repo.Valid()
      ensures teamId == "" ==> r == Fail(InvalidArgument)
      ensures teamId != "" && teamId !in old(repo.teams) ==> r == Fail(NotFound)
      ensures teamId != "" && teamId in old(repo.teams) ==> r == if fails then Fail(Internal) else Pass
      ensures r.Fail? ==> && repo.teams == old(repo.teams) && repo.members == old(repo.members)
                          && repo.shared == old(repo.shared) && event.None?
      ensures r.Pass? ==> && repo.teams == old(repo.teams) - {teamId}
                          && CascadedFrom(teamId, old(repo.members), old(repo.shared), repo.members, repo.shared)
                          && event == TeamEventFor(notify, old(repo.teams[teamId]), "deleted", now)
    {
      event := None;
      if teamId == "" {
        return Fail(InvalidArgument), None;
      }
      var found := repo.GetById(teamId);
      if found.Err? {
        return Fail(NotFound), None;
      }
      var deleted := repo.Delete(teamId, fails);
      if deleted.Fail? {
        return Fail(Internal), None;
      }
      event := TeamEventFor(notify, found.value, "deleted", now);
      r := Pass;
    }

    /** GetTeamMember */
    method GetTeamMember(teamId: string, userId: string) returns (r: Result<TeamMember>)
      ensures teamId == "" || userId == "" ==> r == Err(InvalidArgument)
      ensures teamId != "" && userId != "" && (teamId, userId) !in repo.members ==> r == Err(NotFound)
      ensures teamId != "" && userId != "" && (teamId, userId) in repo.members ==> r == Ok(repo.members[(teamId, userId)])
    {
      if teamId == "" || userId == "" {
        return Err(InvalidArgument);
      }
      var found := repo.GetMember(teamId, userId);
      if found.Err? {
        return Err(NotFound);
      }
      r := Ok(found.value);
    }

    /** AddTeamMember: the new member's join time is the team's creation time; `fails` stands for
        a failed insert. */
    method AddTeamMember(teamId: string, userId: string, role: Role, fails: bool) returns (r: Outcome)
      requires repo.Valid()
      modifies repo
      ensures repo.Valid() && repo.teams == old(repo.teams) && repo.shared == old(repo.shared)
      ensures teamId == "" || userId == "" ==> r == Fail(InvalidArgument)
      ensures teamId != "" && userId != "" && teamId !in old(repo.teams) ==> r == Fail(NotFound)
      ensures teamId != "" && userId != "" && teamId in old(repo.teams) && (teamId, userId) in old(repo.members) ==>
                r == Fail(AlreadyExists)
      ensures teamId != "" && userId != "" && teamId in old(repo.teams) && (teamId, userId) !in old(repo.members) ==>
                r == if fails then Fail(Internal) else Pass
      ensures r.Fail? ==> repo.members == old(repo.members)
      ensures r.Pass? ==> repo.members == old(repo.members)[(teamId, userId) :=
                            TeamMember(teamId, userId, role, old(repo.teams[teamId]).createdAt)]
    {
      if teamId == "" || userId == "" {
        return Fail(InvalidArgument);
      }
      var team := repo.GetById(teamId);
      if team.Err? {
        return Fail(NotFound);
      }
      var existing := repo.GetMember(teamId, userId);
      if existing.Ok? {
        return Fail(AlreadyExists);
      }
      var added := repo.AddMember(TeamMember(teamId, userId, role, team.value.createdAt), fails);
      if added.Fail? {
        return Fail(Internal);
      }
      r := Pass;
    }

    /** RemoveTeamMember; `fails` stands for a failed delete. */
    method RemoveTeamMember(teamId: string, userId: string, fails: bool) returns (r: Outcome)
      requires repo.Valid()
      modifies repo
      ensures repo.Valid() && repo.teams == old(repo.teams) && repo.shared == old(repo.shared)
      ensures teamId == "" || userId == "" ==> r == Fail(InvalidArgument)
      ensures teamId != "" && userId != "" && (teamId, userId) !in old(repo.members) ==> r == Fail(NotFound)
      ensures teamId != "" && userId != "" && (teamId, userId) in old(repo.members) ==>
                r == if fails then Fail(Internal) else Pass
      ensures r.Fail? ==> repo.members == old(repo.members)
      ensures r.Pass? ==> repo.members == old(repo.members) - {(teamId, userId)}
    {
      if teamId == "" || userId == "" {
        return Fail(InvalidArgument);
      }
      var member := repo.GetMember(teamId, userId);
      if member.Err? {
        return Fail(NotFound);
      }
      var removed := repo.RemoveMember(teamId, userId, fails);
      if removed.Fail? {
        return Fail(Internal);
      }
      r := Pass;
    }

    /** UpdateMemberRole; `fails` stands for a failed write. */
    method UpdateMemberRole(teamId: string, userId: string, role: Role, fails: bool) returns (r: Outcome)
      requires repo.Valid()
      modifies repo
      ensures repo.Valid() && repo.teams == old(repo.teams) && repo.shared == old(repo.shared)
      ensures teamId == "" || userId == "" ==> r == Fail(InvalidArgument)
      ensures teamId != "" && userId != "" && (teamId, userId) !in old(repo.members) ==> r == Fail(NotFound)
      ensures teamId != "" && userId != "" && (teamId, userId) in old(repo.members) ==>
                r == if fails then Fail(Internal) else Pass
      ensures r.Fail? ==> repo.members == old(repo.members)
      ensures r.Pass? ==> repo.members == old(repo.members)[(teamId, userId) := old(repo.members[(teamId, userId)]).(role := role)]
    {
      if teamId == "" || userId == "" {
        return Fail(InvalidArgument);
      }
      var member := repo.GetMember(teamId, userId);
      if member.Err? {
        return Fail(NotFound);
      }
      var updated := repo.UpdateMemberRole(teamId, userId, role, fails);
      if updated.Fail? {
        return Fail(Internal);
      }
      r := Pass;
    }

    /** ShareTODO: the TODO id, then the team id, then the sharer must be non-empty; a rejected
        insert (an absent team, or `fails`) is Internal. */
    method ShareTodo(todoId: string, teamId: string, sharedBy: string, fails: bool) returns (r: Outcome)
      requires repo.Valid()
      modifies repo
      ensures repo.Valid() && repo.teams == old(repo.teams) && repo.members == old(repo.members)
      ensures r == if todoId == "" || teamId == "" || sharedBy == "" then Fail(InvalidArgument)
                   else if fails || teamId !in old(repo.teams) then Fail(Internal)
                   else Pass
      ensures r.Fail? ==> repo.shared == old(repo.shared)
      ensures r.Pass? ==> repo.shared == old(repo.shared)[(todoId, teamId) := sharedBy]
    {
      if todoId == "" {
        return Fail(InvalidArgument);
      }
      if teamId == "" {
        return Fail(InvalidArgument);
      }
      if sharedBy == "" {
        return Fail(InvalidArgument);
      }
      var added := repo.ShareTodo(todoId, teamId, sharedBy, fails);
      if added.Fail? {
        return Fail(Internal);
      }
      r := Pass;
    }

    /** UnshareTODO: the TODO id, then the team id, must be non-empty; `fails` stands for a failed
        delete. */
    method UnshareTodo(todoId: string, teamId: string, fails: bool) returns (r: Outcome)
      requires repo.Valid()
      modifies repo
      ensures repo.Valid() && repo.teams == old(repo.teams) && repo.members == old(repo.members)
      ensures r == if todoId == "" || teamId == "" then Fail(InvalidArgument)
                   else if fails then Fail(Internal)
                   else Pass
      ensures r.Fail? ==> repo.shared == old(repo.shared)
      ensures r.Pass? ==> repo.shared == old(repo.shared) - {(todoId, teamId)}
    {
      if todoId == "" {
        return Fail(InvalidArgument);
      }
      if teamId == "" {
        return Fail(InvalidArgument);
      }
      var removed := repo.UnshareTodo(todoId, teamId, fails);
      if removed.Fail? {
        return Fail(Internal);
      }
      r := Pass;
    }
  }
}
