/**
 * The relational store: every table the placement engine and the membership
 * rules touch, as maps from primary key to row, plus the next value of each
 * auto-increment key. `Consistent` is what the schema guarantees: foreign
 * keys resolve, keys were allocated by the counters, and the uniqueness
 * constraints hold. The row-level operations here are the models' own `save`
 * behaviour and state their exact effect; that each write keeps the store
 * consistent is a lemma over the tables' values beside it. The services are in
 * their own modules.
 */
module Store {
  import opened Common
  import opened ProjectModels
  import opened BoardModels
  import opened TaskModels

  ghost predicate MembersResolve(members: Memberships, projects: map<ProjectId, Project>) {
    forall k :: k in members ==> k.0 in projects
  }

  ghost predicate BoardsResolve(boards: map<BoardId, Board>, projects: map<ProjectId, Project>, next: nat) {
    forall b :: b in boards ==> boards[b].project in projects && b < next
  }

  ghost predicate ListsResolve(lists: map<ListId, BoardList>, boards: map<BoardId, Board>, next: nat) {
    forall l :: l in lists ==> lists[l].board in boards && l < next
  }

  ghost predicate TasksResolve(tasks: map<TaskId, Task>, lists: map<ListId, BoardList>,
                               projects: map<ProjectId, Project>, next: nat) {
    forall t :: t in tasks ==> tasks[t].boardList in lists && tasks[t].project in projects && t < next
  }

  ghost predicate AttachmentsResolve(attachments: map<AttachmentId, Attachment>, tasks: map<TaskId, Task>) {
    forall a :: a in attachments ==> attachments[a].task in tasks
  }

  /**
   * What the schema guarantees of the tables: foreign keys resolve, keys were
   * allocated by the counters, and the uniqueness constraints hold.
   */
  ghost predicate Consistent(projects: map<ProjectId, Project>, members: Memberships, boards: map<BoardId, Board>,
                             lists: map<ListId, BoardList>, tasks: map<TaskId, Task>,
                             attachments: map<AttachmentId, Attachment>, nextBoardId: nat, nextListId: nat, nextTaskId: nat)
  {
    && MembersResolve(members, projects)
    && BoardsResolve(boards, projects, nextBoardId)
    && ListsResolve(lists, boards, nextListId)
    && TasksResolve(tasks, lists, projects, nextTaskId)
    && AttachmentsResolve(attachments, tasks)
    && UniqueProjectNames(projects)
    && UniqueBoardNames(boards)
    && UniqueListNames(lists)
  }

  /** The counters are ahead of every key in use, so the next insert takes a free key. */
  lemma CountersAreFresh(projects: map<ProjectId, Project>, members: Memberships, boards: map<BoardId, Board>,
                         lists: map<ListId, BoardList>, tasks: map<TaskId, Task>,
                         attachments: map<AttachmentId, Attachment>, nextBoardId: nat, nextListId: nat, nextTaskId: nat)
    requires Consistent(projects, members, boards, lists, tasks, attachments, nextBoardId, nextListId, nextTaskId)
    ensures nextBoardId !in boards && nextListId !in lists && nextTaskId !in tasks
  {
  }

  /** Replacing the task table by one whose references resolve keeps the store consistent. */
  lemma TasksReplaced(projects: map<ProjectId, Project>, members: Memberships, boards: map<BoardId, Board>,
                      lists: map<ListId, BoardList>, tasks: map<TaskId, Task>,
                      attachments: map<AttachmentId, Attachment>, nextBoardId: nat, nextListId: nat, nextTaskId: nat,
                      rows: map<TaskId, Task>)
    requires Consistent(projects, members, boards, lists, tasks, attachments, nextBoardId, nextListId, nextTaskId)
    requires TasksResolve(rows, lists, projects, nextTaskId) && AttachmentsResolve(attachments, rows)
    ensures Consistent(projects, members, boards, lists, rows, attachments, nextBoardId, nextListId, nextTaskId)
  {
  }

  /**
   * Replacing the list table by one with the same keys, whose lists belong to
   * existing boards and keep their names unique per board, keeps the store
   * consistent.
   */
  lemma ListsReplaced(projects: map<ProjectId, Project>, members: Memberships, boards: map<BoardId, Board>,
                      lists: map<ListId, BoardList>, tasks: map<TaskId, Task>,
                      attachments: map<AttachmentId, Attachment>, nextBoardId: nat, nextListId: nat, nextTaskId: nat,
                      rows: map<ListId, BoardList>)
    requires Consistent(projects, members, boards, lists, tasks, attachments, nextBoardId, nextListId, nextTaskId)
    requires rows.Keys == lists.Keys && ListsResolve(rows, boards, nextListId) && UniqueListNames(rows)
    ensures Consistent(projects, members, boards, rows, tasks, attachments, nextBoardId, nextListId, nextTaskId)
  {
    assert TasksResolve(tasks, rows, projects, nextTaskId);
  }

  /** Inserting a board of an existing project under a name still free there keeps the store consistent. */
  lemma BoardInsertKeepsConsistent(projects: map<ProjectId, Project>, members: Memberships, boards: map<BoardId, Board>,
                                   lists: map<ListId, BoardList>, tasks: map<TaskId, Task>,
                                   attachments: map<AttachmentId, Attachment>, nextBoardId: nat, nextListId: nat,
                                   nextTaskId: nat, b: Board)
    requires Consistent(projects, members, boards, lists, tasks, attachments, nextBoardId, nextListId, nextTaskId)
    requires b.project in projects
    requires forall o :: o in boards && boards[o].project == b.project ==> boards[o].name != b.name
    ensures Consistent(projects, members, boards[nextBoardId := b], lists, tasks, attachments,
                       nextBoardId + 1, nextListId, nextTaskId)
  {
    var boards' := boards[nextBoardId := b];
    assert nextBoardId !in boards;
    forall x, y | x in boards' && y in boards' && x != y && boards'[x].project == boards'[y].project
      ensures boards'[x].name != boards'[y].name
    {
    }
    assert ListsResolve(lists, boards', nextListId);
  }

  /** Inserting a list of an existing board under a name still free there keeps the store consistent. */
  lemma ListInsertKeepsConsistent(projects: map<ProjectId, Project>, members: Memberships, boards: map<BoardId, Board>,
                                  lists: map<ListId, BoardList>, tasks: map<TaskId, Task>,
                                  attachments: map<AttachmentId, Attachment>, nextBoardId: nat, nextListId: nat,
                                  nextTaskId: nat, l: BoardList)
    requires Consistent(projects, members, boards, lists, tasks, attachments, nextBoardId, nextListId, nextTaskId)
    requires l.board in boards
    requires forall o :: o in lists && lists[o].board == l.board ==> lists[o].name != l.name
    ensures Consistent(projects, members, boards, lists[nextListId := l], tasks, attachments,
                       nextBoardId, nextListId + 1, nextTaskId)
  {
    var lists' := lists[nextListId := l];
    assert nextListId !in lists;
    forall x, y | x in lists' && y in lists' && x != y && lists'[x].board == lists'[y].board
      ensures lists'[x].name != lists'[y].name
    {
    }
    assert TasksResolve(tasks, lists', projects, nextTaskId);
  }

  /**
   * Saving a task whose list and project exist keeps the store consistent,
   * whether the save updates a row or inserts one (the counter then moves past
   * the new key).
   */
  lemma TaskSaveKeepsConsistent(projects: map<ProjectId, Project>, members: Memberships, boards: map<BoardId, Board>,
                                lists: map<ListId, BoardList>, tasks: map<TaskId, Task>,
                                attachments: map<AttachmentId, Attachment>, nextBoardId: nat, nextListId: nat,
                                nextTaskId: nat, id: TaskId, t: Task)
    requires Consistent(projects, members, boards, lists, tasks, attachments, nextBoardId, nextListId, nextTaskId)
    requires t.boardList in lists && t.project in projects
    ensures Consistent(projects, members, boards, lists, tasks[id := WithDerivedStatus(t, lists[t.boardList].name)],
                       attachments, nextBoardId, nextListId, if id < nextTaskId then nextTaskId else id + 1)
  {
    var rows := tasks[id := WithDerivedStatus(t, lists[t.boardList].name)];
    var next := if id < nextTaskId then nextTaskId else id + 1;
    assert TasksResolve(rows, lists, projects, next);
    assert AttachmentsResolve(attachments, rows);
  }

  /** Saving an attachment of an existing task keeps the store consistent. */
  lemma AttachmentSaveKeepsConsistent(projects: map<ProjectId, Project>, members: Memberships, boards: map<BoardId, Board>,
                                      lists: map<ListId, BoardList>, tasks: map<TaskId, Task>,
                                      attachments: map<AttachmentId, Attachment>, nextBoardId: nat, nextListId: nat,
                                      nextTaskId: nat, id: AttachmentId, a: Attachment)
    requires Consistent(projects, members, boards, lists, tasks, attachments, nextBoardId, nextListId, nextTaskId)
    requires a.task in tasks
    ensures Consistent(projects, members, boards, lists, tasks, attachments[id := WithDefaultFilename(a)],
                       nextBoardId, nextListId, nextTaskId)
  {
  }

  class Database {
    var projects: map<ProjectId, Project>
    /** (team, user) pairs: who belongs to which team. */
    var teamMembers: set<(TeamId, UserId)>
    var members: Memberships
    var boards: map<BoardId, Board>
    var lists: map<ListId, BoardList>
    var tasks: map<TaskId, Task>
    var attachments: map<AttachmentId, Attachment>
    var nextBoardId: nat
    var nextListId: nat
    var nextTaskId: nat

    /** The store's tables satisfy `Consistent`. */
    ghost predicate Valid()
      reads this
    {
      Consistent(projects, members, boards, lists, tasks, attachments, nextBoardId, nextListId, nextTaskId)
    }

    constructor ()
      ensures Valid()
      ensures nextBoardId == 1 && nextListId == 1 && nextTaskId == 1
      ensures projects == map[] && teamMembers == {} && members == map[]
      ensures boards == map[] && lists == map[] && tasks == map[] && attachments == map[]
    {
      projects, teamMembers, members := map[], {}, map[];
      boards, lists, tasks, attachments := map[], map[], map[], map[];
      // Auto-increment keys start at 1.
      nextBoardId, nextListId, nextTaskId := 1, 1, 1;
    }

    /**
     * Commits a transaction's view of the task table: the rows replace the
     * table, which they leave consistent with the other tables.
     */
    method CommitTasks(rows: map<TaskId, Task>)
      requires Consistent(projects, members, boards, lists, rows, attachments, nextBoardId, nextListId, nextTaskId)
      modifies this`tasks
      ensures Valid() && tasks == rows
      ensures projects == old(projects) && teamMembers == old(teamMembers) && members == old(members)
      ensures boards == old(boards) && lists == old(lists) && attachments == old(attachments)
      ensures nextBoardId == old(nextBoardId) && nextListId == old(nextListId) && nextTaskId == old(nextTaskId)
    {
      tasks := rows;
    }

    /**
     * Commits a transaction's view of the list table: the rows replace the
     * table, which they leave consistent with the other tables.
     */
    method CommitLists(rows: map<ListId, BoardList>)
      requires Consistent(projects, members, boards, rows, tasks, attachments, nextBoardId, nextListId, nextTaskId)
      modifies this`lists
      ensures Valid() && lists == rows
      ensures projects == old(projects) && teamMembers == old(teamMembers) && members == old(members)
      ensures boards == old(boards) && tasks == old(tasks) && attachments == old(attachments)
      ensures nextBoardId == old(nextBoardId) && nextListId == old(nextListId) && nextTaskId == old(nextTaskId)
    {
      lists := rows;
    }

    /**
     * Inserts a board under the next board id; the caller has checked its
     * name is free in its project (the unique constraint would reject it).
     */
    method InsertBoard(b: Board) returns (id: BoardId)
      requires Valid() && b.project in projects
      requires forall o :: o in boards && boards[o].project == b.project ==> boards[o].name != b.name
      modifies this`boards, this`nextBoardId
      ensures Valid()
      ensures id == old(nextBoardId) && nextBoardId == id + 1
      ensures boards == old(boards)[id := b]
      ensures projects == old(projects) && teamMembers == old(teamMembers) && members == old(members)
      ensures lists == old(lists) && tasks == old(tasks) && attachments == old(attachments)
      ensures nextListId == old(nextListId) && nextTaskId == old(nextTaskId)
    {
      BoardInsertKeepsConsistent(projects, members, boards, lists, tasks, attachments,
                                 nextBoardId, nextListId, nextTaskId, b);
      id := nextBoardId;
      boards := boards[id := b];
      nextBoardId := nextBoardId + 1;
    }

    /**
     * Inserts a list under the next list id; the caller has checked its name
     * is free on its board (the unique constraint would reject it).
     */
    method InsertList(l: BoardList) returns (id: ListId)
      requires Valid() && l.board in boards
      requires forall o :: o in lists && lists[o].board == l.board ==> lists[o].name != l.name
      modifies this`lists, this`nextListId
      ensures Valid()
      ensures id == old(nextListId) && nextListId == id + 1
      ensures lists == old(lists)[id := l]
      ensures projects == old(projects) && teamMembers == old(teamMembers) && members == old(members)
      ensures boards == old(boards) && tasks == old(tasks) && attachments == old(attachments)
      ensures nextBoardId == old(nextBoardId) && nextTaskId == old(nextTaskId)
    {
      ListInsertKeepsConsistent(projects, members, boards, lists, tasks, attachments,
                                nextBoardId, nextListId, nextTaskId, l);
      id := nextListId;
      lists := lists[id := l];
      nextListId := nextListId + 1;
    }

    /**
     * `Task.save`: stores the task under `id` with its status derived from its
     * list's name; a new key moves the task counter past it.
     */
    method SaveTask(id: TaskId, t: Task)
      requires Valid() && t.boardList in lists && t.project in projects
      modifies this`tasks, this`nextTaskId
      ensures Valid()
      ensures lists == old(lists)
      ensures tasks == old(tasks)[id := WithDerivedStatus(t, lists[t.boardList].name)]
      ensures nextTaskId == if id < old(nextTaskId) then old(nextTaskId) else id + 1
      ensures projects == old(projects) && teamMembers == old(teamMembers) && members == old(members)
      ensures boards == old(boards) && attachments == old(attachments)
      ensures nextBoardId == old(nextBoardId) && nextListId == old(nextListId)
    {
      TaskSaveKeepsConsistent(projects, members, boards, lists, tasks, attachments,
                              nextBoardId, nextListId, nextTaskId, id, t);
      var name := lists[t.boardList].name;
      var stored := if name != "" then t.(status := name) else t;
      tasks, nextTaskId := tasks[id := stored], if id < nextTaskId then nextTaskId else id + 1;
    }

    /** Inserts a task under the next task id, through `Task.save`. */
    method InsertTask(t: Task) returns (id: TaskId)
      requires Valid() && t.boardList in lists && t.project in projects
      modifies this`tasks, this`nextTaskId
      ensures Valid()
      ensures id == old(nextTaskId) && nextTaskId == id + 1
      ensures lists == old(lists)
      ensures tasks == old(tasks)[id := WithDerivedStatus(t, lists[t.boardList].name)]
      ensures projects == old(projects) && teamMembers == old(teamMembers) && members == old(members)
      ensures boards == old(boards) && attachments == old(attachments)
      ensures nextBoardId == old(nextBoardId) && nextListId == old(nextListId)
    {
      id := nextTaskId;
      SaveTask(id, t);
    }

    /** `Attachment.save`: stores the attachment, filling a blank filename from the file's name. */
    method SaveAttachment(id: AttachmentId, a: Attachment)
      requires Valid() && a.task in tasks
      modifies this`attachments
      ensures Valid()
      ensures attachments == old(attachments)[id := WithDefaultFilename(a)]
      ensures projects == old(projects) && teamMembers == old(teamMembers) && members == old(members)
      ensures boards == old(boards) && lists == old(lists) && tasks == old(tasks)
      ensures nextBoardId == old(nextBoardId) && nextListId == old(nextListId) && nextTaskId == old(nextTaskId)
    {
      AttachmentSaveKeepsConsistent(projects, members, boards, lists, tasks, attachments,
                                    nextBoardId, nextListId, nextTaskId, id, a);
      var stored := a;
      if a.filename == "" && a.file != "" {
        stored := stored.(filename := a.file);
      }
      attachments := attachments[id := stored];
    }
  }
}
