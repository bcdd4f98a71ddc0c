/**
 * Projects and project memberships. A project belongs to a team and has a name
 * unique within it. A membership ties one user to one project with a role; the
 * membership table is keyed by (project, user), so there is at most one row
 * per pair.
 */
module ProjectModels {
  import opened Common

  datatype Role = Manager | Member | Viewer

  const DEFAULT_ROLE: Role := Member

  datatype Project = Project(team: TeamId, name: string, archived: bool)

  /** The membership table: (project, user) to role. */
  type Memberships = map<(ProjectId, UserId), Role>

  /** The `is_manager` property of a membership. */
  predicate IsManager(role: Role) { role == Manager }

  /** The (team, name) uniqueness constraint on projects. */
  predicate UniqueProjectNames(projects: map<ProjectId, Project>) {
    forall a, b :: a in projects && b in projects && a != b && projects[a].team == projects[b].team ==>
      projects[a].name != projects[b].name
  }

  /** The users holding the manager role in a project. */
  function ManagersOf(members: Memberships, project: ProjectId): (ms: set<UserId>)
    ensures forall u :: u in ms <==> (project, u) in members && IsManager(members[(project, u)])
  {
    set k | k in members && k.0 == project && IsManager(members[k]) :: k.1
  }

  function ManagerCount(members: Memberships, project: ProjectId): nat {
    |ManagersOf(members, project)|
  }
}
