/**
 * Object-level permissions. The project an object belongs to is found by
 * duck typing: a project is its own project; anything with a `project`
 * attribute uses it; anything with a `board` attribute uses the board's
 * project. A request is allowed only for an authenticated user with a
 * membership in that project (any role for `IsProjectMember`, the manager
 * role for `IsProjectManager`); an object without a project is refused.
 */
module ProjectPermissions {
  import opened Common
  import opened ProjectModels
  import BoardModels
  import TaskModels

  /** An attribute as `hasattr` sees it. */
  datatype Attr<T> = Absent | Present(value: T)

  /**
   * The object a permission is checked on: a project, or any other row with
   * its `project` attribute (None when it is null) and its `board`
   * attribute, given as the board's project (None when the board is null or
   * has no project).
   */
  datatype Obj =
    | ProjectObj(id: ProjectId)
    | Row(project: Attr<Option<ProjectId>>, boardProject: Attr<Option<ProjectId>>)

  /** `_extract_project`: the project the object belongs to, if any. */
  function ExtractProject(obj: Obj): (r: Option<ProjectId>)
    ensures obj.ProjectObj? ==> r == Some(obj.id)
    ensures obj.Row? && obj.project.Present? ==> r == obj.project.value
    ensures obj.Row? && obj.project.Absent? && obj.boardProject.Present? ==> r == obj.boardProject.value
    ensures obj.Row? && obj.project.Absent? && obj.boardProject.Absent? ==> r.None?
  {
    match obj
    case ProjectObj(id) => Some(id)
    case Row(project, boardProject) =>
      if project.Present? then project.value
      else if boardProject.Present? then boardProject.value
      else None
  }

  /** `IsProjectMember.has_object_permission`; `user` is None for an anonymous request. */
  function IsProjectMember(members: Memberships, obj: Obj, user: Option<UserId>): (allowed: bool)
    ensures allowed <==> exists p, u :: ExtractProject(obj) == Some(p) && user == Some(u) && (p, u) in members
  {
    var project := ExtractProject(obj);
    if project.None? || user.None? then false
    else (project.value, user.value) in members
  }

  /** `IsProjectManager.has_object_permission`; `user` is None for an anonymous request. */
  function IsProjectManager(members: Memberships, obj: Obj, user: Option<UserId>): (allowed: bool)
    ensures allowed <==>
      exists p, u :: ExtractProject(obj) == Some(p) && user == Some(u) && (p, u) in members && IsManager(members[(p, u)])
  {
    var project := ExtractProject(obj);
    if project.None? || user.None? then false
    else (project.value, user.value) in members && members[(project.value, user.value)] == Manager
  }

  /** Manager access implies member access; the converse holds exactly for managers. */
  lemma ManagerIsMember(members: Memberships, obj: Obj, user: Option<UserId>)
    ensures IsProjectManager(members, obj, user) ==> IsProjectMember(members, obj, user)
    ensures IsProjectMember(members, obj, user) && !IsProjectManager(members, obj, user) ==>
      !IsManager(members[(ExtractProject(obj).value, user.value)])
  {
  }

  /** Anonymous requests and objects with no project are refused by both checks. */
  lemma DeniedWithoutUserOrProject(members: Memberships, obj: Obj, user: Option<UserId>)
    requires user.None? || ExtractProject(obj).None?
    ensures !IsProjectMember(members, obj, user) && !IsProjectManager(members, obj, user)
  {
  }

  /** A `project` attribute decides, even when null and even when the object also has a board. */
  lemma ProjectAttributeWins(project: Option<ProjectId>, boardProject: Attr<Option<ProjectId>>)
    ensures ExtractProject(Row(Present(project), boardProject)) == project
  {
  }

  /** The object a task is checked as: it has a project and no board. */
  function TaskObj(t: TaskModels.Task): Obj {
    Row(Present(Some(t.project)), Absent)
  }

  /** The object a list is checked as: it has a board and no project. */
  function ListObj(boards: map<BoardId, BoardModels.Board>, l: BoardModels.BoardList): Obj
    requires l.board in boards
  {
    Row(Absent, Present(Some(boards[l.board].project)))
  }

  /**
   * On tasks, lists and boards the checks come down to a membership in the
   * task's project, in the project of the list's board, and in the board's
   * project.
   */
  lemma RowsResolveToTheirProject(members: Memberships, boards: map<BoardId, BoardModels.Board>,
                                  t: TaskModels.Task, l: BoardModels.BoardList, b: BoardModels.Board, u: UserId)
    requires l.board in boards
    ensures IsProjectMember(members, TaskObj(t), Some(u)) <==> (t.project, u) in members
    ensures IsProjectMember(members, ListObj(boards, l), Some(u)) <==> (boards[l.board].project, u) in members
    ensures IsProjectManager(members, Row(Present(Some(b.project)), Absent), Some(u)) <==>
      (b.project, u) in members && IsManager(members[(b.project, u)])
  {
  }
}
