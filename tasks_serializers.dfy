/**
 * Creating and updating a task through the task serializer. Validation checks
 * that the task's list lies on a board of the task's project, taking each of
 * the two from the payload or else from the task being updated. A task created
 * without a position goes after the list's last task (max + 1, or 1 on an
 * empty list); an explicit position is stored as given. An update that changes
 * the list hands the placement to `move_task_to_list` and then copies every
 * other supplied field; any other update writes the supplied fields as they
 * are. The status is read-only to clients: saving derives it from the list.
 */
module TaskSerializers {
  import opened Common
  import opened Placement
  import opened BoardModels
  import opened TaskModels
  import opened Store
  import opened TaskServices
  import ProjectModels

  datatype TaskError = ListOutsideProject

  /** The project of the board a list sits on. */
  function ListProject(boards: map<BoardId, Board>, lists: map<ListId, BoardList>, list: ListId): ProjectId
    requires list in lists && lists[list].board in boards
  {
    boards[lists[list].board].project
  }

  /** The project validation checks: the payload's, else the instance's, else none. */
  function EffectiveProject(project: Option<ProjectId>, instance: Option<Task>): (r: Option<ProjectId>)
    ensures project.Some? ==> r == project
    ensures project.None? && instance.Some? ==> r == Some(instance.value.project)
    ensures project.None? && instance.None? ==> r == None
  {
    if project.Some? then project else if instance.Some? then Some(instance.value.project) else None
  }

  /** The list validation checks: the payload's, else the instance's, else none. */
  function EffectiveList(list: Option<ListId>, instance: Option<Task>): (r: Option<ListId>)
    ensures list.Some? ==> r == list
    ensures list.None? && instance.Some? ==> r == Some(instance.value.boardList)
    ensures list.None? && instance.None? ==> r == None
  {
    if list.Some? then list else if instance.Some? then Some(instance.value.boardList) else None
  }

  /** Every list the payload or the instance names exists and sits on an existing board. */
  predicate ListsResolveIn(boards: map<BoardId, Board>, lists: map<ListId, BoardList>, list: Option<ListId>,
                           instance: Option<Task>) {
    && (list.Some? ==> list.value in lists && lists[list.value].board in boards)
    && (instance.Some? ==> instance.value.boardList in lists && lists[instance.value.boardList].board in boards)
  }

  /**
   * `TaskSerializer.validate`: rejected exactly when a project and a list are
   * both known and the list's board belongs to another project.
   */
  function ValidateTask(boards: map<BoardId, Board>, lists: map<ListId, BoardList>, project: Option<ProjectId>,
                        list: Option<ListId>, instance: Option<Task>): (r: Result<(), TaskError>)
    requires ListsResolveIn(boards, lists, list, instance)
    ensures r.Err? ==> r.error == ListOutsideProject
    ensures r.Ok? <==>
      EffectiveProject(project, instance).None? || EffectiveList(list, instance).None? ||
      ListProject(boards, lists, EffectiveList(list, instance).value) == EffectiveProject(project, instance).value
  {
    var p := EffectiveProject(project, instance);
    var l := EffectiveList(list, instance);
    if p.Some? && l.Some? && ListProject(boards, lists, l.value) != p.value then Err(ListOutsideProject) else Ok(())
  }

  /** When the payload names both the project and the list, the instance plays no part. */
  lemma PayloadOverridesInstance(boards: map<BoardId, Board>, lists: map<ListId, BoardList>, project: ProjectId,
                                 list: ListId, instance: Option<Task>)
    requires ListsResolveIn(boards, lists, Some(list), instance)
    ensures ValidateTask(boards, lists, Some(project), Some(list), instance)
         == ValidateTask(boards, lists, Some(project), Some(list), None)
    ensures ValidateTask(boards, lists, Some(project), Some(list), instance).Ok? <==>
      ListProject(boards, lists, list) == project
  {
  }

  /**
   * A payload that omits both fields validates the task's own project and list
   * again; one that omits only the list checks the new project against the
   * task's current list.
   */
  lemma OmittedFieldsFallBack(boards: map<BoardId, Board>, lists: map<ListId, BoardList>, project: Option<ProjectId>,
                              t: Task)
    requires ListsResolveIn(boards, lists, None, Some(t))
    ensures ValidateTask(boards, lists, None, None, Some(t)).Ok? <==> ListProject(boards, lists, t.boardList) == t.project
    ensures project.Some? ==>
      (ValidateTask(boards, lists, project, None, Some(t)).Ok? <==> ListProject(boards, lists, t.boardList) == project.value)
  {
  }

  /** The position a new task is stored at: the one supplied, or the list's max + 1. */
  function NewTaskPosition(tasks: map<TaskId, Task>, list: ListId, position: Option<nat>): (p: nat)
    ensures position.Some? ==> p == position.value
    ensures position.None? ==> p == MaxPosition(TaskPositions(tasks, list)) + 1
    ensures position.None? ==> forall t :: t in tasks && tasks[t].boardList == list ==> tasks[t].position < p
    ensures position.None? && TaskPositions(tasks, list) == map[] ==> p == 1
  {
    if position.Some? then position.value else MaxPosition(TaskPositions(tasks, list)) + 1
  }

  /**
   * The row a create stores: the client's task at its placement, with the
   * read-only status left blank for saving to derive.
   */
  function NewTaskRow(tasks: map<TaskId, Task>, lists: map<ListId, BoardList>, t: Task, position: Option<nat>): Task
    requires t.boardList in lists
  {
    WithDerivedStatus(t.(status := "", position := NewTaskPosition(tasks, t.boardList, position)), lists[t.boardList].name)
  }

  /**
   * `TaskSerializer.create` behind validation: a list outside the task's
   * project is rejected and nothing is written; otherwise one task is inserted
   * at the position `NewTaskPosition` gives, and no other task changes.
   */
  method CreateTask(db: Database, t: Task, position: Option<nat>) returns (r: Result<TaskId, TaskError>)
    requires db.Valid() && t.boardList in db.lists && t.project in db.projects
    modifies db`tasks, db`nextTaskId
    ensures db.Valid()
    ensures r.Err? <==> ListProject(old(db.boards), old(db.lists), t.boardList) != t.project
    ensures r.Err? ==> db.tasks == old(db.tasks) && db.nextTaskId == old(db.nextTaskId)
    ensures r.Ok? ==>
      r.value == old(db.nextTaskId) && db.nextTaskId == r.value + 1 &&
      db.tasks == old(db.tasks)[r.value := NewTaskRow(old(db.tasks), old(db.lists), t, position)]
    ensures db.projects == old(db.projects) && db.teamMembers == old(db.teamMembers) && db.members == old(db.members)
    ensures db.boards == old(db.boards) && db.lists == old(db.lists) && db.attachments == old(db.attachments)
    ensures db.nextBoardId == old(db.nextBoardId) && db.nextListId == old(db.nextListId)
  {
    var valid := ValidateTask(db.boards, db.lists, Some(t.project), Some(t.boardList), None);
    if valid.Err? {
      return Err(valid.error);
    }
    var id := InsertNewTask(db, t, position);
    r := Ok(id);
  }

  /** The write half of an accepted create: the task goes in at its new position. */
  method InsertNewTask(db: Database, t: Task, position: Option<nat>) returns (id: TaskId)
    requires db.Valid() && t.boardList in db.lists && t.project in db.projects
    modifies db`tasks, db`nextTaskId
    ensures db.Valid()
    ensures id == old(db.nextTaskId) && db.nextTaskId == id + 1
    ensures db.tasks == old(db.tasks)[id := NewTaskRow(old(db.tasks), db.lists, t, position)]
  {
    var placed: nat;
    if position.None? {
      placed := MaxPosition(TaskPositions(db.tasks, t.boardList)) + 1;
    } else {
      placed := position.value;
    }
    id := db.InsertTask(t.(status := "", position := placed));
  }

  /** A created task's status is its list's name, whatever the client sent. */
  lemma CreatedStatusIsListName(tasks: map<TaskId, Task>, lists: map<ListId, BoardList>, t: Task, position: Option<nat>)
    requires t.boardList in lists
    ensures NewTaskRow(tasks, lists, t, position).status == lists[t.boardList].name
    ensures NewTaskRow(tasks, lists, t, position).(status := t.status, position := t.position) == t
  {
  }

  /**
   * A task created without a position keeps a dense list dense: it lands at
   * N + 1, the list's other tasks keep their positions, and no other list
   * changes.
   */
  lemma AppendedTaskKeepsDensity(tasks: map<TaskId, Task>, lists: map<ListId, BoardList>, t: Task, id: TaskId)
    requires t.boardList in lists && id !in tasks && Dense(TaskPositions(tasks, t.boardList))
    ensures NewTaskPosition(tasks, t.boardList, None) == |TaskPositions(tasks, t.boardList)| + 1
    ensures TaskPositions(tasks[id := NewTaskRow(tasks, lists, t, None)], t.boardList)
         == TaskPositions(tasks, t.boardList)[id := |TaskPositions(tasks, t.boardList)| + 1]
    ensures Dense(TaskPositions(tasks[id := NewTaskRow(tasks, lists, t, None)], t.boardList))
  {
    var pos := TaskPositions(tasks, t.boardList);
    var row := NewTaskRow(tasks, lists, t, None);
    assert row.boardList == t.boardList && row.position == MaxPosition(pos) + 1;
    RelocatedPositions(tasks, id, row, t.boardList);
    DenseAppendPosition(pos);
    AppendAtEnd(pos, id);
  }

  /** The fields an update may carry; `None` means the payload omits the field. */
  datatype TaskPatch = TaskPatch(
    project: Option<ProjectId>,
    boardList: Option<ListId>,
    title: Option<string>,
    description: Option<string>,
    dueDate: Option<Option<int>>,
    assignee: Option<Option<UserId>>,
    priority: Option<Priority>,
    position: Option<nat>,
    tags: Option<seq<string>>)

  /** Writes the supplied non-placement fields onto `t`. */
  function WithFields(t: Task, patch: TaskPatch): (r: Task)
    ensures r.boardList == t.boardList && r.position == t.position && r.status == t.status
  {
    t.(project := if patch.project.Some? then patch.project.value else t.project,
       title := if patch.title.Some? then patch.title.value else t.title,
       description := if patch.description.Some? then patch.description.value else t.description,
       dueDate := if patch.dueDate.Some? then patch.dueDate.value else t.dueDate,
       assignee := if patch.assignee.Some? then patch.assignee.value else t.assignee,
       priority := if patch.priority.Some? then patch.priority.value else t.priority,
       tags := if patch.tags.Some? then patch.tags.value else t.tags)
  }

  /** Writes every supplied field, placement included, onto `t`. */
  function WithAllFields(t: Task, patch: TaskPatch): (r: Task)
    ensures r.(boardList := t.boardList, position := t.position) == WithFields(t, patch)
  {
    WithFields(t, patch).(boardList := if patch.boardList.Some? then patch.boardList.value else t.boardList,
                          position := if patch.position.Some? then patch.position.value else t.position)
  }

  /** True when the update names a list other than the task's own. */
  predicate ChangesList(tasks: map<TaskId, Task>, id: TaskId, patch: TaskPatch)
    requires id in tasks
  {
    patch.boardList.Some? && patch.boardList.value != tasks[id].boardList
  }

  /** The task table after an accepted update. */
  function Updated(tasks: map<TaskId, Task>, lists: map<ListId, BoardList>, id: TaskId, patch: TaskPatch)
    : (r: map<TaskId, Task>)
    requires id in tasks && tasks[id].boardList in lists
    requires patch.boardList.Some? ==> patch.boardList.value in lists
    ensures r.Keys == tasks.Keys
  {
    if ChangesList(tasks, id, patch) then
      var moved := Moved(tasks, lists, id, patch.boardList.value, patch.position);
      moved[id := WithDerivedStatus(WithFields(moved[id], patch), lists[patch.boardList.value].name)]
    else
      var u := WithAllFields(tasks[id], patch);
      tasks[id := WithDerivedStatus(u, lists[u.boardList].name)]
  }

  /**
   * `TaskSerializer.update` behind validation: a list outside the task's
   * project is rejected and nothing is written. A change of list moves the
   * task with the supplied position, then copies the other supplied fields and
   * saves; otherwise the supplied fields are written and the task is saved.
   */
  method UpdateTask(db: Database, id: TaskId, patch: TaskPatch) returns (r: Result<Task, TaskError>)
    requires db.Valid() && id in db.tasks
    requires patch.boardList.Some? ==> patch.boardList.value in db.lists
    requires patch.project.Some? ==> patch.project.value in db.projects
    modifies db`tasks, db`nextTaskId
    ensures db.Valid()
    ensures r.Err? <==> ValidateTask(old(db.boards), old(db.lists), patch.project, patch.boardList, Some(old(db.tasks)[id])).Err?
    ensures db.lists == old(db.lists)
    ensures r.Err? ==> db.tasks == old(db.tasks)
    ensures r.Ok? ==> db.tasks == Updated(old(db.tasks), db.lists, id, patch) && r.value == db.tasks[id]
    ensures db.projects == old(db.projects) && db.teamMembers == old(db.teamMembers) && db.members == old(db.members)
    ensures db.boards == old(db.boards) && db.attachments == old(db.attachments)
    ensures db.nextBoardId == old(db.nextBoardId) && db.nextListId == old(db.nextListId)
    ensures db.nextTaskId == if r.Err? || id < old(db.nextTaskId) then old(db.nextTaskId) else id + 1
  {
    var instance := db.tasks[id];
    var valid := ValidateTask(db.boards, db.lists, patch.project, patch.boardList, Some(instance));
    if valid.Err? {
      return Err(valid.error);
    }
    var updated := ApplyUpdate(db, id, patch);
    r := Ok(updated);
  }

  /**
   * The write half of an accepted update: a change of list moves the task
   * first, then the remaining supplied fields are written and the task saved.
   */
  method ApplyUpdate(db: Database, id: TaskId, patch: TaskPatch) returns (updated: Task)
    requires db.Valid() && id in db.tasks
    requires patch.boardList.Some? ==> patch.boardList.value in db.lists
    requires patch.project.Some? ==> patch.project.value in db.projects
    modifies db`tasks, db`nextTaskId
    ensures db.Valid()
    ensures db.tasks == Updated(old(db.tasks), db.lists, id, patch) && updated == db.tasks[id]
    ensures db.nextTaskId == if id < old(db.nextTaskId) then old(db.nextTaskId) else id + 1
    ensures db.projects == old(db.projects) && db.teamMembers == old(db.teamMembers) && db.members == old(db.members)
    ensures db.boards == old(db.boards) && db.lists == old(db.lists) && db.attachments == old(db.attachments)
    ensures db.nextBoardId == old(db.nextBoardId) && db.nextListId == old(db.nextListId)
  {
    var instance := db.tasks[id];
    var written: Task;
    if patch.boardList.Some? && patch.boardList.value != instance.boardList {
      var moved := MoveTaskToList(db, id, patch.boardList.value, patch.position);
      written := WithFields(moved.value, patch);
    } else {
      written := WithAllFields(instance, patch);
    }
    db.SaveTask(id, written);
    updated := db.tasks[id];
  }

  /** The list an update leaves the task in: the supplied one, else its own. */
  function UpdatedList(t: Task, patch: TaskPatch): ListId {
    if patch.boardList.Some? then patch.boardList.value else t.boardList
  }

  /**
   * The updated task: every supplied field other than list and position is
   * written and no other data changes; it sits in the supplied list; a change
   * of list takes the move's placement and always sets the status to the new
   * list's name, while an update within the list stores the supplied position
   * as given and derives the status like any save.
   */
  lemma UpdatedTaskFields(tasks: map<TaskId, Task>, lists: map<ListId, BoardList>, id: TaskId, patch: TaskPatch)
    requires id in tasks && tasks[id].boardList in lists
    requires patch.boardList.Some? ==> patch.boardList.value in lists
    ensures var u := Updated(tasks, lists, id, patch)[id];
      && u.boardList == UpdatedList(tasks[id], patch)
      && u.(boardList := tasks[id].boardList, position := tasks[id].position, status := tasks[id].status)
         == WithFields(tasks[id], patch)
      && (lists[u.boardList].name != "" ==> u.status == lists[u.boardList].name)
    ensures ChangesList(tasks, id, patch) ==>
      && Updated(tasks, lists, id, patch)[id].position
         == Moved(tasks, lists, id, patch.boardList.value, patch.position)[id].position
      && Updated(tasks, lists, id, patch)[id].status == lists[patch.boardList.value].name
    ensures !ChangesList(tasks, id, patch) ==>
      Updated(tasks, lists, id, patch)[id].position
        == if patch.position.Some? then patch.position.value else tasks[id].position
  {
    if ChangesList(tasks, id, patch) {
      MoveRelocates(tasks, lists, id, patch.boardList.value, patch.position);
    }
  }

  /**
   * No other task's data changes: an update within the list touches only the
   * task itself, and a change of list touches others only as the move does.
   */
  lemma UpdateTouchesOthersOnlyByMove(tasks: map<TaskId, Task>, lists: map<ListId, BoardList>, id: TaskId,
                                      patch: TaskPatch, other: TaskId)
    requires id in tasks && tasks[id].boardList in lists
    requires patch.boardList.Some? ==> patch.boardList.value in lists
    requires other in tasks && other != id
    ensures !ChangesList(tasks, id, patch) ==> Updated(tasks, lists, id, patch)[other] == tasks[other]
    ensures ChangesList(tasks, id, patch) ==>
      Updated(tasks, lists, id, patch)[other] == Moved(tasks, lists, id, patch.boardList.value, patch.position)[other]
    ensures Updated(tasks, lists, id, patch)[other].(position := tasks[other].position) == tasks[other]
  {
    if ChangesList(tasks, id, patch) {
      MoveRewritesOnlyPositions(tasks, lists, id, patch.boardList.value, patch.position);
    }
  }

  /**
   * An update that names the task's own list with a position stores that
   * position without shifting anything, so it can collide with a neighbour.
   */
  lemma SameListPositionCanCollide(tasks: map<TaskId, Task>, lists: map<ListId, BoardList>, id: TaskId,
                                   patch: TaskPatch, other: TaskId)
    requires id in tasks && tasks[id].boardList in lists
    requires patch.boardList == Some(tasks[id].boardList)
    requires other in tasks && other != id && tasks[other].boardList == tasks[id].boardList
    requires patch.position == Some(tasks[other].position)
    ensures !Injective(TaskPositions(Updated(tasks, lists, id, patch), tasks[id].boardList))
  {
    var r := Updated(tasks, lists, id, patch);
    var pos := TaskPositions(r, tasks[id].boardList);
    assert r[id].boardList == tasks[id].boardList;
    assert r[other] == tasks[other];
    assert id in pos && other in pos && pos[id] == pos[other];
  }

  /**
   * An update whose project and list exist keeps the store consistent and
   * allocates no key.
   */
  lemma UpdateKeepsConsistent(projects: map<ProjectId, ProjectModels.Project>, members: ProjectModels.Memberships,
                              boards: map<BoardId, Board>, lists: map<ListId, BoardList>, tasks: map<TaskId, Task>,
                              attachments: map<AttachmentId, Attachment>, nextBoardId: nat, nextListId: nat,
                              nextTaskId: nat, id: TaskId, patch: TaskPatch)
    requires Consistent(projects, members, boards, lists, tasks, attachments, nextBoardId, nextListId, nextTaskId)
    requires id in tasks
    requires patch.boardList.Some? ==> patch.boardList.value in lists
    requires patch.project.Some? ==> patch.project.value in projects
    ensures Consistent(projects, members, boards, lists, Updated(tasks, lists, id, patch), attachments,
                       nextBoardId, nextListId, nextTaskId)
  {
    assert id < nextTaskId;
    if ChangesList(tasks, id, patch) {
      var target := patch.boardList.value;
      var moved := Moved(tasks, lists, id, target, patch.position);
      MoveKeepsConsistent(projects, members, boards, lists, tasks, attachments, nextBoardId, nextListId, nextTaskId,
                          id, target, patch.position);
      MoveRelocates(tasks, lists, id, target, patch.position);
      TaskSaveKeepsConsistent(projects, members, boards, lists, moved, attachments, nextBoardId, nextListId, nextTaskId,
                              id, WithFields(moved[id], patch));
    } else {
      TaskSaveKeepsConsistent(projects, members, boards, lists, tasks, attachments, nextBoardId, nextListId, nextTaskId,
                              id, WithAllFields(tasks[id], patch));
    }
  }

  /** Creating a task in an existing list of an existing project keeps the store consistent. */
  lemma CreateTaskKeepsConsistent(projects: map<ProjectId, ProjectModels.Project>, members: ProjectModels.Memberships,
                                  boards: map<BoardId, Board>, lists: map<ListId, BoardList>, tasks: map<TaskId, Task>,
                                  attachments: map<AttachmentId, Attachment>, nextBoardId: nat, nextListId: nat,
                                  nextTaskId: nat, t: Task, position: Option<nat>)
    requires Consistent(projects, members, boards, lists, tasks, attachments, nextBoardId, nextListId, nextTaskId)
    requires t.boardList in lists && t.project in projects
    ensures nextTaskId !in tasks
    ensures Consistent(projects, members, boards, lists, tasks[nextTaskId := NewTaskRow(tasks, lists, t, position)],
                       attachments, nextBoardId, nextListId, nextTaskId + 1)
  {
    CountersAreFresh(projects, members, boards, lists, tasks, attachments, nextBoardId, nextListId, nextTaskId);
    TaskSaveKeepsConsistent(projects, members, boards, lists, tasks, attachments, nextBoardId, nextListId, nextTaskId,
                            nextTaskId, t.(status := "", position := NewTaskPosition(tasks, t.boardList, position)));
  }
}
