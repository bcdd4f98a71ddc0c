/**
 * Adding and removing project members. Only a member of the project's team can
 * join a project; adding an existing member sets their role. A member who is
 * not in the project cannot be removed, and neither can the project's only
 * manager. Adding is where a role changes, and it carries no manager guard.
 */
module ProjectServices {
  import opened Common
  import opened ProjectModels
  import opened Store
  import BoardModels
  import TaskModels

  datatype MembershipError = NotInTeam | NotAMember | LastManager

  /** The membership table after `user` joins `project` with `role`, or has their role set to it. */
  function Added(members: Memberships, project: ProjectId, user: UserId, role: Role): (r: Memberships)
    ensures (project, user) in r && r[(project, user)] == role
    ensures r.Keys == members.Keys + {(project, user)}
    ensures forall k :: k in members && k != (project, user) ==> r[k] == members[k]
  {
    members[(project, user) := role]
  }

  /** The membership table after the (project, user) membership is deleted. */
  function Removed(members: Memberships, project: ProjectId, user: UserId): (r: Memberships)
    ensures (project, user) !in r
    ensures r.Keys == members.Keys - {(project, user)}
    ensures forall k :: k in r ==> r[k] == members[k]
  {
    members - {(project, user)}
  }

  /**
   * `add_project_member`: a user outside the project's team is rejected and
   * nothing changes; otherwise the membership is created with `role`, or its
   * role is set to `role` when it differs. The role defaults to member.
   */
  method AddProjectMember(db: Database, project: ProjectId, user: UserId, role: Role := DEFAULT_ROLE)
    returns (r: Result<Role, MembershipError>)
    requires db.Valid() && project in db.projects
    modifies db`members
    ensures db.Valid()
    ensures (db.projects[project].team, user) !in db.teamMembers ==> r == Err(NotInTeam) && db.members == old(db.members)
    ensures (db.projects[project].team, user) in db.teamMembers ==>
      r == Ok(role) && db.members == Added(old(db.members), project, user, role)
  {
    if (db.projects[project].team, user) !in db.teamMembers {
      return Err(NotInTeam);
    }
    AddKeepsConsistent(db.projects, db.members, db.boards, db.lists, db.tasks, db.attachments,
                       db.nextBoardId, db.nextListId, db.nextTaskId, project, user, role);
    if (project, user) !in db.members {
      db.members := db.members[(project, user) := role];
    } else if db.members[(project, user)] != role {
      db.members := db.members[(project, user) := role];
    }
    r := Ok(role);
  }

  /**
   * Why `remove_project_member` refuses, if it does: the user has no
   * membership, or they are a manager and the project has no other one.
   */
  function RemovalCheck(members: Memberships, project: ProjectId, user: UserId): (r: Option<MembershipError>)
    ensures r == Some(NotAMember) <==> (project, user) !in members
    ensures r == Some(LastManager) <==>
      (project, user) in members && IsManager(members[(project, user)]) && ManagersOf(members, project) == {user}
    ensures r.None? <==>
      (project, user) in members && (!IsManager(members[(project, user)]) || exists m :: m in ManagersOf(members, project) && m != user)
  {
    if (project, user) !in members then Some(NotAMember)
    else if !IsManager(members[(project, user)]) then None
    else if ManagerCount(members, project) <= 1 then
      OnlyManager(members, project, user);
      Some(LastManager)
    else
      OnlyManager(members, project, user);
      OtherManager(members, project, user);
      None
  }

  /** A manager who is counted alone is the only manager. */
  lemma OnlyManager(members: Memberships, project: ProjectId, user: UserId)
    requires (project, user) in members && IsManager(members[(project, user)])
    ensures ManagerCount(members, project) <= 1 <==> ManagersOf(members, project) == {user}
  {
    var ms := ManagersOf(members, project);
    assert user in ms;
    if |ms| <= 1 {
      assert |ms - {user}| == |ms| - 1;
      assert ms - {user} == {};
    }
  }

  /** A manager who is not counted alone has a fellow manager. */
  lemma OtherManager(members: Memberships, project: ProjectId, user: UserId)
    requires (project, user) in members && IsManager(members[(project, user)]) && ManagerCount(members, project) > 1
    ensures exists m :: m in ManagersOf(members, project) && m != user
  {
    var ms := ManagersOf(members, project);
    assert |ms - {user}| == |ms| - 1 > 0;
    var m :| m in ms - {user};
  }

  /**
   * `remove_project_member`: the membership is deleted unless `RemovalCheck`
   * refuses, in which case its error is returned and nothing changes.
   */
  method RemoveProjectMember(db: Database, project: ProjectId, user: UserId) returns (r: Result<(), MembershipError>)
    requires db.Valid()
    modifies db`members
    ensures db.Valid()
    ensures RemovalCheck(old(db.members), project, user).Some? ==>
      r == Err(RemovalCheck(old(db.members), project, user).value) && db.members == old(db.members)
    ensures RemovalCheck(old(db.members), project, user).None? ==>
      r == Ok(()) && db.members == Removed(old(db.members), project, user)
  {
    if (project, user) !in db.members {
      return Err(NotAMember);
    }
    if db.members[(project, user)] == Manager {
      var managers := ManagerCount(db.members, project);
      if managers <= 1 {
        return Err(LastManager);
      }
    }
    RemoveKeepsConsistent(db.projects, db.members, db.boards, db.lists, db.tasks, db.attachments,
                          db.nextBoardId, db.nextListId, db.nextTaskId, project, user);
    db.members := db.members - {(project, user)};
    r := Ok(());
  }

  /**
   * The managers after an add: the user joins them when the role is manager
   * and leaves them otherwise; the other projects' managers do not change.
   */
  lemma {:induction false} AddedManagers(members: Memberships, project: ProjectId, user: UserId, role: Role, other: ProjectId)
    ensures ManagersOf(Added(members, project, user, role), project)
         == if IsManager(role) then ManagersOf(members, project) + {user} else ManagersOf(members, project) - {user}
    ensures other != project ==> ManagersOf(Added(members, project, user, role), other) == ManagersOf(members, other)
  {
    var after := ManagersOf(Added(members, project, user, role), project);
    var expected := if IsManager(role) then ManagersOf(members, project) + {user} else ManagersOf(members, project) - {user};
    forall u ensures u in after <==> u in expected {
      if u != user {
        assert (project, u) != (project, user);
      }
    }
  }

  /**
   * Adding can take away the last manager: re-adding a project's only manager
   * with the member role leaves the project without one. The last-manager
   * guard lives in removal only.
   */
  lemma AddCanDemoteLastManager()
    ensures var members: Memberships := map[(1, 1) := Manager];
      ManagerCount(members, 1) == 1 && ManagerCount(Added(members, 1, 1, Member), 1) == 0
  {
    var members: Memberships := map[(1, 1) := Manager];
    assert ManagersOf(members, 1) == {1} by {
      assert 1 in ManagersOf(members, 1);
    }
    AddedManagers(members, 1, 1, Member, 1);
  }

  /** Adding twice is adding once; adding a member with the role they hold changes nothing. */
  lemma AddIsIdempotent(members: Memberships, project: ProjectId, user: UserId, role: Role)
    ensures Added(Added(members, project, user, role), project, user, role) == Added(members, project, user, role)
    ensures (project, user) in members && members[(project, user)] == role ==> Added(members, project, user, role) == members
  {
  }

  /** Removing a membership and adding it back with its role restores the table, and vice versa. */
  lemma RemoveThenAddRestores(members: Memberships, project: ProjectId, user: UserId)
    ensures (project, user) in members ==>
      Added(Removed(members, project, user), project, user, members[(project, user)]) == members
    ensures forall role :: Removed(Added(members, project, user, role), project, user) == Removed(members, project, user)
  {
  }

  /**
   * The managers after an accepted removal: the user is no longer among them,
   * the count drops by one exactly when the user was a manager, and a project
   * that had a manager still has one.
   */
  lemma RemovalKeepsAManager(members: Memberships, project: ProjectId, user: UserId)
    requires RemovalCheck(members, project, user).None?
    ensures ManagersOf(Removed(members, project, user), project) == ManagersOf(members, project) - {user}
    ensures ManagerCount(Removed(members, project, user), project)
         == if IsManager(members[(project, user)]) then ManagerCount(members, project) - 1 else ManagerCount(members, project)
    ensures ManagerCount(members, project) > 0 ==> ManagerCount(Removed(members, project, user), project) > 0
  {
    var before := ManagersOf(members, project);
    var after := ManagersOf(Removed(members, project, user), project);
    forall u ensures u in after <==> u in before - {user} {
      if u != user {
        assert (project, u) != (project, user);
      }
    }
    if IsManager(members[(project, user)]) {
      assert user in before;
      var m :| m in before && m != user;
      assert m in after;
    } else {
      assert user !in before;
      assert after == before;
    }
  }

  /** Adding a member of an existing project keeps the store consistent. */
  lemma AddKeepsConsistent(projects: map<ProjectId, Project>, members: Memberships, boards: map<BoardId, BoardModels.Board>,
                           lists: map<ListId, BoardModels.BoardList>, tasks: map<TaskId, TaskModels.Task>,
                           attachments: map<AttachmentId, TaskModels.Attachment>, nextBoardId: nat, nextListId: nat,
                           nextTaskId: nat, project: ProjectId, user: UserId, role: Role)
    requires Consistent(projects, members, boards, lists, tasks, attachments, nextBoardId, nextListId, nextTaskId)
    requires project in projects
    ensures Consistent(projects, Added(members, project, user, role), boards, lists, tasks, attachments,
                       nextBoardId, nextListId, nextTaskId)
  {
  }

  /** Removing a membership keeps the store consistent. */
  lemma RemoveKeepsConsistent(projects: map<ProjectId, Project>, members: Memberships, boards: map<BoardId, BoardModels.Board>,
                              lists: map<ListId, BoardModels.BoardList>, tasks: map<TaskId, TaskModels.Task>,
                              attachments: map<AttachmentId, TaskModels.Attachment>, nextBoardId: nat, nextListId: nat,
                              nextTaskId: nat, project: ProjectId, user: UserId)
    requires Consistent(projects, members, boards, lists, tasks, attachments, nextBoardId, nextListId, nextTaskId)
    ensures Consistent(projects, Removed(members, project, user), boards, lists, tasks, attachments,
                       nextBoardId, nextListId, nextTaskId)
  {
  }
}
