/**
 * Tasks and attachments. A task belongs to a project and to one list, has a
 * non-negative position in that list (0 by default), a priority (medium by
 * default) and a status that saving derives from its list's name. Tasks are
 * shown ordered by (position, id).
 */
module TaskModels {
  import opened Common
  import Placement

  datatype Priority = Low | Medium | High

  /** Due dates are integer seconds; a missing assignee or due date is None. */
  datatype Task = Task(
    project: ProjectId,
    boardList: ListId,
    title: string,
    description: string,
    dueDate: Option<int>,
    assignee: Option<UserId>,
    priority: Priority,
    status: string,
    position: nat,
    tags: seq<string>)

  /**
   * What saving a task stores: the status becomes the list's name, unless that
   * name is empty, in which case the task is stored as given.
   */
  function WithDerivedStatus(t: Task, listName: string): (r: Task)
    ensures listName != "" ==> r.status == listName
    ensures listName == "" ==> r == t
    ensures r.(status := t.status) == t
  {
    if listName != "" then t.(status := listName) else t
  }

  /** The position map of the tasks of one list. */
  function TaskPositions(tasks: map<TaskId, Task>, list: ListId): (pos: map<TaskId, nat>)
    ensures forall t :: t in pos <==> t in tasks && tasks[t].boardList == list
    ensures forall t :: t in pos ==> pos[t] == tasks[t].position
  {
    map t | t in tasks && tasks[t].boardList == list :: tasks[t].position
  }

  /** An attachment; `file` is the uploaded file's name, empty when there is no file. */
  datatype Attachment = Attachment(task: TaskId, file: string, filename: string)

  /**
   * What saving an attachment stores: a blank filename is filled in from the
   * file's name; a filename already given is kept.
   */
  function WithDefaultFilename(a: Attachment): (r: Attachment)
    ensures a.filename != "" ==> r == a
    ensures a.filename == "" ==> r.filename == a.file
    ensures r.task == a.task && r.file == a.file
  {
    if a.filename == "" && a.file != "" then a.(filename := a.file) else a
  }
}
