/** Teams, team membership and the role hierarchy used by every team permission check. */
module DomainTeam {
  import opened Wrappers

  type Time = int

  /** commonv1.Role is a protobuf int32 enum. */
  type Role = int

  const RoleUnspecified: Role := 0
  const RoleOwner: Role := 1
  const RoleAdmin: Role := 2
  const RoleMember: Role := 3

  datatype Team = Team(id: string, name: string, description: string, createdBy: string, createdAt: Time, updatedAt: Time)

  datatype TeamMember = TeamMember(teamId: string, userId: string, role: Role, joinedAt: Time)

  /** NewTeam; the fresh identifier and the current instant are parameters. */
  function NewTeam(newId: string, name: string, description: string, createdBy: string, now: Time): (t: Team)
    ensures t.id == newId && t.name == name && t.description == description && t.createdBy == createdBy
    ensures t.createdAt == t.updatedAt == now
  {
    Team(newId, name, description, createdBy, now, now)
  }

  /** The rank of a role in the hierarchy OWNER > ADMIN > MEMBER; a role outside the table ranks 0. */
  function RoleRank(r: Role): (rank: nat)
    ensures rank <= 3
    ensures rank == 0 <==> r !in {RoleOwner, RoleAdmin, RoleMember}
  {
    if r == RoleOwner then 3 else if r == RoleAdmin then 2 else if r == RoleMember then 1 else 0
  }

  /** TeamMember.HasPermission: the member's rank is at least the required role's rank. */
  function HasPermission(m: TeamMember, required: Role): (b: bool)
    ensures b <==> RoleRank(m.role) >= RoleRank(required)
    // every member satisfies its own role
    ensures required == m.role ==> b
    // an owner satisfies every requirement
    ensures m.role == RoleOwner ==> b
    // a plain member satisfies neither ADMIN nor OWNER
    ensures m.role == RoleMember && (required == RoleAdmin || required == RoleOwner) ==> !b
    // a requirement outside the table is met by everyone, unknown roles included
    ensures RoleRank(required) == 0 ==> b
    // a member whose role is outside the table meets only requirements outside the table
    ensures RoleRank(m.role) == 0 ==> (b <==> RoleRank(required) == 0)
  {
    RoleRank(m.role) >= RoleRank(required)
  }

  /** The rank comparison is transitive: satisfying a role satisfies every role it satisfies. */
  lemma HasPermissionTransitive(m: TeamMember, r1: Role, r2: Role)
    requires HasPermission(m, r1) && HasPermission(TeamMember(m.teamId, m.userId, r1, m.joinedAt), r2)
    ensures HasPermission(m, r2)
  {
  }
}
