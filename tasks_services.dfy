/**
 * The two services that rewrite task positions: reordering the tasks of one
 * list from a submitted permutation of their ids, and moving a task to another
 * list. Each runs as one transaction: the loop works on the transaction's view
 * of the task table (`rows`) and the result is committed at the end, or not at
 * all when the call is rejected.
 */
module TaskServices {
  import opened Common
  import opened Placement
  import opened BoardModels
  import opened TaskModels
  import opened Store
  import ProjectModels

  /** The ids of the tasks of a list. */
  function TasksIn(tasks: map<TaskId, Task>, list: ListId): set<TaskId> {
    TaskPositions(tasks, list).Keys
  }

  /** The task table after an accepted reorder of `list`: each of its tasks takes its rank. */
  function Reordered(tasks: map<TaskId, Task>, list: ListId, order: seq<TaskId>): map<TaskId, Task> {
    var rank := RankMap(order);
    map t | t in tasks :: if tasks[t].boardList == list && t in rank then tasks[t].(position := rank[t]) else tasks[t]
  }

  /** The tasks of `list` whose stored position differs from their rank: the rows a reorder saves. */
  function RankChanges(tasks: map<TaskId, Task>, list: ListId, order: seq<TaskId>): set<TaskId> {
    var rank := RankMap(order);
    set t | t in tasks && tasks[t].boardList == list && t in rank && tasks[t].position != rank[t]
  }

  /** A reorder rewrites positions only, so it keeps the store consistent. */
  lemma ReorderKeepsConsistent(projects: map<ProjectId, ProjectModels.Project>, members: ProjectModels.Memberships,
                               boards: map<BoardId, Board>, lists: map<ListId, BoardList>, tasks: map<TaskId, Task>,
                               attachments: map<AttachmentId, Attachment>, nextBoardId: nat, nextListId: nat,
                               nextTaskId: nat, list: ListId, order: seq<TaskId>)
    requires Consistent(projects, members, boards, lists, tasks, attachments, nextBoardId, nextListId, nextTaskId)
    ensures Consistent(projects, members, boards, lists, Reordered(tasks, list, order), attachments,
                       nextBoardId, nextListId, nextTaskId)
  {
    var rows := Reordered(tasks, list, order);
    assert TasksResolve(rows, lists, projects, nextTaskId);
    assert AttachmentsResolve(attachments, rows);
    TasksReplaced(projects, members, boards, lists, tasks, attachments, nextBoardId, nextListId, nextTaskId, rows);
  }

  /**
   * The write loop of `reorder_tasks`, run on the transaction's view of the
   * task table once the order has been accepted: every task of the list whose
   * position differs from its rank is given its rank and saved (only its
   * position is written). `written` is the set of tasks saved.
   */
  method AssignRanks(tasks: map<TaskId, Task>, list: ListId, order: seq<TaskId>)
    returns (rows: map<TaskId, Task>, written: set<TaskId>)
    requires Elems(order) == TasksIn(tasks, list)
    ensures rows == Reordered(tasks, list, order)
    ensures written == RankChanges(tasks, list, order)
  {
    var rank := RankMap(order);
    var members := TasksIn(tasks, list);
    assert rank.Keys == members;
    var todo := members;
    rows, written := tasks, {};
    while todo != {}
      invariant todo <= members
      invariant rows.Keys == tasks.Keys
      invariant forall t :: t in rows && t !in members ==> rows[t] == tasks[t]
      invariant forall t :: t in todo ==> rows[t] == tasks[t]
      invariant forall t :: t in members && t !in todo ==> rows[t] == tasks[t].(position := rank[t])
      invariant forall t :: t in written <==> t in members && t !in todo && tasks[t].position != rank[t]
      decreases todo
    {
      var t :| t in todo;
      // Every task of the list has a rank, so the source's second check
      // ("Invalid task id in order payload") cannot fire once the first passed.
      assert t in rank;
      if rows[t].position != rank[t] {
        rows := rows[t := rows[t].(position := rank[t])];
        written := written + {t};
      }
      todo := todo - {t};
    }
    assert forall t :: t in members <==> t in tasks && tasks[t].boardList == list;
    ghost var reordered := Reordered(tasks, list, order);
    forall t | t in rows ensures rows[t] == reordered[t] {
    }
    assert written == RankChanges(tasks, list, order);
  }

  /**
   * `reorder_tasks`: accepts the order only when it has as many ids as the list
   * has tasks and the same id set; then gives the k-th id position k + 1,
   * saving only the tasks whose position changes, and commits. A rejected
   * order changes nothing. `written` is the set of tasks saved.
   */
  method ReorderTasks(db: Database, list: ListId, order: seq<TaskId>) returns (accepted: bool, written: set<TaskId>)
    requires db.Valid() && list in db.lists
    modifies db`tasks
    ensures db.Valid()
    ensures accepted == AcceptsOrder(order, TasksIn(old(db.tasks), list))
    ensures db.tasks == if accepted then Reordered(old(db.tasks), list, order) else old(db.tasks)
    ensures written == if accepted then RankChanges(old(db.tasks), list, order) else {}
  {
    var existing := TasksIn(db.tasks, list);
    if |order| != |existing| || Elems(order) != existing {
      return false, {};
    }
    var rows;
    rows, written := AssignRanks(db.tasks, list, order);
    ReorderKeepsConsistent(db.projects, db.members, db.boards, db.lists, db.tasks, db.attachments,
                           db.nextBoardId, db.nextListId, db.nextTaskId, list, order);
    db.CommitTasks(rows);
    accepted := true;
  }

  /** After an accepted reorder the list's position map is the rank map of the order. */
  lemma ReorderedPositions(tasks: map<TaskId, Task>, list: ListId, order: seq<TaskId>)
    requires AcceptsOrder(order, TasksIn(tasks, list))
    ensures TaskPositions(Reordered(tasks, list, order), list) == RankMap(order)
  {
    var r := Reordered(tasks, list, order);
    var pos := TaskPositions(r, list);
    assert pos.Keys == RankMap(order).Keys;
    forall t | t in pos ensures pos[t] == RankMap(order)[t] {
      assert r[t] == tasks[t].(position := RankMap(order)[t]);
    }
  }

  /** A reorder of one list leaves the positions of every other list as they were. */
  lemma ReorderLeavesOtherLists(tasks: map<TaskId, Task>, list: ListId, order: seq<TaskId>, other: ListId)
    requires other != list
    ensures TaskPositions(Reordered(tasks, list, order), other) == TaskPositions(tasks, other)
  {
    var r := Reordered(tasks, list, order);
    assert TaskPositions(r, other).Keys == TaskPositions(tasks, other).Keys;
  }

  /**
   * An accepted reorder puts the k-th submitted id at position k + 1, so the
   * list's positions become exactly 1..N.
   */
  lemma ReorderRanksAndDensity(tasks: map<TaskId, Task>, list: ListId, order: seq<TaskId>)
    requires AcceptsOrder(order, TasksIn(tasks, list))
    ensures forall k :: 0 <= k < |order| ==>
      order[k] in Reordered(tasks, list, order) && Reordered(tasks, list, order)[order[k]].position == k + 1
    ensures Dense(TaskPositions(Reordered(tasks, list, order), list))
    ensures TaskPositions(Reordered(tasks, list, order), list).Values == Slots(|order|)
  {
    AcceptsExactlyPermutations(order, TasksIn(tasks, list));
    ReorderedPositions(tasks, list, order);
    RankMapDense(order);
    DenseIsOneToN(RankMap(order));
    forall k | 0 <= k < |order|
      ensures order[k] in Reordered(tasks, list, order) && Reordered(tasks, list, order)[order[k]].position == k + 1
    {
      RankOfIndex(order, k);
      assert order[k] in TaskPositions(Reordered(tasks, list, order), list);
    }
  }

  /** After an accepted reorder, listing the list by (position, id) gives back the submitted order. */
  lemma ReorderListsInOrder(tasks: map<TaskId, Task>, list: ListId, order: seq<TaskId>, i: nat, j: nat)
    requires AcceptsOrder(order, TasksIn(tasks, list)) && i < j < |order|
    ensures order[i] in TaskPositions(Reordered(tasks, list, order), list)
    ensures order[j] in TaskPositions(Reordered(tasks, list, order), list)
    ensures ListedBefore(TaskPositions(Reordered(tasks, list, order), list), order[i], order[j])
  {
    AcceptsExactlyPermutations(order, TasksIn(tasks, list));
    ReorderedPositions(tasks, list, order);
    RankMapListsInOrder(order, i, j);
  }

  /**
   * Reordering is idempotent: the same order is accepted again, leaves the
   * table as it is and saves no task.
   */
  lemma ReorderIdempotent(tasks: map<TaskId, Task>, list: ListId, order: seq<TaskId>)
    requires AcceptsOrder(order, TasksIn(tasks, list))
    ensures AcceptsOrder(order, TasksIn(Reordered(tasks, list, order), list))
    ensures Reordered(Reordered(tasks, list, order), list, order) == Reordered(tasks, list, order)
    ensures RankChanges(Reordered(tasks, list, order), list, order) == {}
  {
    ReorderedPositions(tasks, list, order);
    var r := Reordered(tasks, list, order);
    assert TasksIn(r, list) == RankMap(order).Keys;
  }

  /** Source compaction: the tasks of `source` above position `above` move down by one. */
  function CompactSource(tasks: map<TaskId, Task>, source: ListId, above: nat): (r: map<TaskId, Task>)
    ensures r.Keys == tasks.Keys
    ensures forall t :: t in r ==> r[t].(position := tasks[t].position) == tasks[t]
  {
    map t | t in tasks ::
      if tasks[t].boardList == source && tasks[t].position > above then tasks[t].(position := tasks[t].position - 1)
      else tasks[t]
  }

  /** Target shift: the tasks of `target` at or above position `from` move up by one. */
  function ShiftTarget(tasks: map<TaskId, Task>, target: ListId, from: nat): (r: map<TaskId, Task>)
    ensures r.Keys == tasks.Keys
    ensures forall t :: t in r ==> r[t].(position := tasks[t].position) == tasks[t]
  {
    map t | t in tasks ::
      if tasks[t].boardList == target && tasks[t].position >= from then tasks[t].(position := tasks[t].position + 1)
      else tasks[t]
  }

  /**
   * The task table after `move_task_to_list`: nothing when the task is already
   * in the target list; otherwise compact the source, then open a slot at the
   * requested position (or take the target's max + 1), then relocate the task
   * and give it the target list's name as status.
   */
  function Moved(tasks: map<TaskId, Task>, lists: map<ListId, BoardList>, id: TaskId, target: ListId,
                 position: Option<nat>): (r: map<TaskId, Task>)
    requires id in tasks && target in lists
    ensures r.Keys == tasks.Keys
  {
    var task := tasks[id];
    if task.boardList == target then tasks
    else
      var compacted := CompactSource(tasks, task.boardList, task.position);
      var shifted := if position.Some? then ShiftTarget(compacted, target, position.value) else compacted;
      var placed := if position.Some? then position.value else MaxPosition(TaskPositions(compacted, target)) + 1;
      shifted[id := task.(boardList := target, position := placed, status := lists[target].name)]
  }

  /** Every task but the moved one keeps all its fields except its position. */
  lemma MoveRewritesOnlyPositions(tasks: map<TaskId, Task>, lists: map<ListId, BoardList>, id: TaskId, target: ListId,
                                  position: Option<nat>)
    requires id in tasks && target in lists
    ensures forall t :: t in tasks && t != id ==>
      Moved(tasks, lists, id, target, position)[t].(position := tasks[t].position) == tasks[t]
  {
    var task := tasks[id];
    if task.boardList != target {
      var compacted := CompactSource(tasks, task.boardList, task.position);
      var shifted := if position.Some? then ShiftTarget(compacted, target, position.value) else compacted;
      assert forall t :: t in shifted ==> shifted[t].(position := compacted[t].position) == compacted[t];
    }
  }

  /**
   * The moved task keeps its project, title and other data; when it changes
   * lists it now belongs to the target list and carries that list's name as
   * its status, and otherwise it is left as it was.
   */
  lemma MoveRelocates(tasks: map<TaskId, Task>, lists: map<ListId, BoardList>, id: TaskId, target: ListId,
                      position: Option<nat>)
    requires id in tasks && target in lists
    ensures var m := Moved(tasks, lists, id, target, position)[id];
      m.boardList == target &&
      m.(boardList := tasks[id].boardList, position := tasks[id].position, status := tasks[id].status) == tasks[id]
    ensures tasks[id].boardList != target ==> Moved(tasks, lists, id, target, position)[id].status == lists[target].name
    ensures tasks[id].boardList == target ==> Moved(tasks, lists, id, target, position) == tasks
  {
  }

  lemma MovedResolves(tasks: map<TaskId, Task>, lists: map<ListId, BoardList>, projects: map<ProjectId, ProjectModels.Project>,
                      next: nat, attachments: map<AttachmentId, Attachment>, id: TaskId, target: ListId, position: Option<nat>)
    requires TasksResolve(tasks, lists, projects, next) && AttachmentsResolve(attachments, tasks)
    requires id in tasks && target in lists
    ensures TasksResolve(Moved(tasks, lists, id, target, position), lists, projects, next)
    ensures AttachmentsResolve(attachments, Moved(tasks, lists, id, target, position))
  {
    var rows := Moved(tasks, lists, id, target, position);
    MoveRewritesOnlyPositions(tasks, lists, id, target, position);
    MoveRelocates(tasks, lists, id, target, position);
    forall t | t in rows ensures rows[t].boardList in lists && rows[t].project in projects && t < next {
      if t != id {
        assert rows[t].(position := tasks[t].position) == tasks[t];
      }
    }
  }

  /** A move rewrites positions and relocates one task to an existing list, so it keeps the store consistent. */
  lemma MoveKeepsConsistent(projects: map<ProjectId, ProjectModels.Project>, members: ProjectModels.Memberships,
                            boards: map<BoardId, Board>, lists: map<ListId, BoardList>, tasks: map<TaskId, Task>,
                            attachments: map<AttachmentId, Attachment>, nextBoardId: nat, nextListId: nat,
                            nextTaskId: nat, id: TaskId, target: ListId, position: Option<nat>)
    requires Consistent(projects, members, boards, lists, tasks, attachments, nextBoardId, nextListId, nextTaskId)
    requires id in tasks && target in lists
    ensures Consistent(projects, members, boards, lists, Moved(tasks, lists, id, target, position), attachments,
                       nextBoardId, nextListId, nextTaskId)
  {
    MovedResolves(tasks, lists, projects, nextTaskId, attachments, id, target, position);
    TasksReplaced(projects, members, boards, lists, tasks, attachments, nextBoardId, nextListId, nextTaskId,
                  Moved(tasks, lists, id, target, position));
  }

  lemma CompactSourcePositions(tasks: map<TaskId, Task>, source: ListId, above: nat, l: ListId)
    ensures TaskPositions(CompactSource(tasks, source, above), l)
         == if l == source then Compacted(TaskPositions(tasks, l), above) else TaskPositions(tasks, l)
  {
    var c := CompactSource(tasks, source, above);
    assert TaskPositions(c, l).Keys == TaskPositions(tasks, l).Keys;
  }

  lemma ShiftTargetPositions(tasks: map<TaskId, Task>, target: ListId, from: nat, l: ListId)
    ensures TaskPositions(ShiftTarget(tasks, target, from), l)
         == if l == target then OpenedAt(TaskPositions(tasks, l), from) else TaskPositions(tasks, l)
  {
    var c := ShiftTarget(tasks, target, from);
    assert TaskPositions(c, l).Keys == TaskPositions(tasks, l).Keys;
  }

  lemma RelocatedPositions(tasks: map<TaskId, Task>, id: TaskId, t: Task, l: ListId)
    ensures TaskPositions(tasks[id := t], l)
         == if l == t.boardList then TaskPositions(tasks, l)[id := t.position] else TaskPositions(tasks, l) - {id}
  {
    assert TaskPositions(tasks[id := t], l).Keys
        == if l == t.boardList then TaskPositions(tasks, l).Keys + {id} else TaskPositions(tasks, l).Keys - {id};
  }

  /** A task changing lists leaves its source list with the gap it left closed. */
  lemma MoveSourcePositions(tasks: map<TaskId, Task>, lists: map<ListId, BoardList>, id: TaskId, target: ListId,
                            position: Option<nat>)
    requires id in tasks && target in lists && tasks[id].boardList != target
    ensures TaskPositions(Moved(tasks, lists, id, target, position), tasks[id].boardList)
         == Compacted(TaskPositions(tasks, tasks[id].boardList) - {id}, tasks[id].position)
  {
    var task := tasks[id];
    var source := task.boardList;
    var compacted := CompactSource(tasks, source, task.position);
    var shifted := if position.Some? then ShiftTarget(compacted, target, position.value) else compacted;
    var placed := if position.Some? then position.value else MaxPosition(TaskPositions(compacted, target)) + 1;
    var moved := task.(boardList := target, position := placed, status := lists[target].name);
    assert Moved(tasks, lists, id, target, position) == shifted[id := moved];
    CompactSourcePositions(tasks, source, task.position, source);
    if position.Some? {
      ShiftTargetPositions(compacted, target, position.value, source);
    }
    assert TaskPositions(shifted, source) == Compacted(TaskPositions(tasks, source), task.position);
    RelocatedPositions(shifted, id, moved, source);
    CompactedWithout(TaskPositions(tasks, source), task.position, id);
  }

  /**
   * A task changing lists lands in the target list at the requested position,
   * after the target's tasks at or above it have moved up by one, or at the
   * target's max + 1 when no position is given.
   */
  lemma MoveTargetPositions(tasks: map<TaskId, Task>, lists: map<ListId, BoardList>, id: TaskId, target: ListId,
                            position: Option<nat>)
    requires id in tasks && target in lists && tasks[id].boardList != target
    ensures TaskPositions(Moved(tasks, lists, id, target, position), target)
         == if position.Some? then OpenedAt(TaskPositions(tasks, target), position.value)[id := position.value]
            else TaskPositions(tasks, target)[id := MaxPosition(TaskPositions(tasks, target)) + 1]
  {
    var task := tasks[id];
    var compacted := CompactSource(tasks, task.boardList, task.position);
    var shifted := if position.Some? then ShiftTarget(compacted, target, position.value) else compacted;
    var placed := if position.Some? then position.value else MaxPosition(TaskPositions(compacted, target)) + 1;
    var moved := task.(boardList := target, position := placed, status := lists[target].name);
    assert Moved(tasks, lists, id, target, position) == shifted[id := moved];
    CompactSourcePositions(tasks, task.boardList, task.position, target);
    if position.Some? {
      ShiftTargetPositions(compacted, target, position.value, target);
    }
    RelocatedPositions(shifted, id, moved, target);
  }

  /** A move leaves the positions of every list other than its source and target as they were. */
  lemma MoveLeavesOtherLists(tasks: map<TaskId, Task>, lists: map<ListId, BoardList>, id: TaskId, target: ListId,
                             position: Option<nat>, other: ListId)
    requires id in tasks && target in lists && other != tasks[id].boardList && other != target
    ensures TaskPositions(Moved(tasks, lists, id, target, position), other) == TaskPositions(tasks, other)
  {
    var r := Moved(tasks, lists, id, target, position);
    MoveRewritesOnlyPositions(tasks, lists, id, target, position);
    MoveRelocates(tasks, lists, id, target, position);
    forall t | t in r && t != id ensures r[t].boardList == tasks[t].boardList {
      assert r[t].(position := tasks[t].position) == tasks[t];
    }
    if tasks[id].boardList != target {
      var task := tasks[id];
      var compacted := CompactSource(tasks, task.boardList, task.position);
      var shifted := if position.Some? then ShiftTarget(compacted, target, position.value) else compacted;
      forall t | t in r && r[t].boardList == other ensures r[t] == tasks[t] {
        assert compacted[t] == tasks[t];
      }
    }
    assert TaskPositions(r, other).Keys == TaskPositions(tasks, other).Keys;
  }

  /**
   * When both lists are dense and the requested position lies in 1..N+1 of
   * the target, a move keeps both lists dense: the source loses one task and
   * the target gains it.
   */
  lemma MovePreservesDensity(tasks: map<TaskId, Task>, lists: map<ListId, BoardList>, id: TaskId, target: ListId,
                             position: Option<nat>)
    requires id in tasks && target in lists && tasks[id].boardList != target
    requires Dense(TaskPositions(tasks, tasks[id].boardList)) && Dense(TaskPositions(tasks, target))
    requires position.Some? ==> 1 <= position.value <= |TaskPositions(tasks, target)| + 1
    ensures Dense(TaskPositions(Moved(tasks, lists, id, target, position), tasks[id].boardList))
    ensures |TaskPositions(Moved(tasks, lists, id, target, position), tasks[id].boardList)|
         == |TaskPositions(tasks, tasks[id].boardList)| - 1
    ensures Dense(TaskPositions(Moved(tasks, lists, id, target, position), target))
    ensures |TaskPositions(Moved(tasks, lists, id, target, position), target)| == |TaskPositions(tasks, target)| + 1
  {
    MoveKeepsSourceDense(tasks, lists, id, target, position);
    MoveKeepsTargetDense(tasks, lists, id, target, position);
  }

  /** The source half of `MovePreservesDensity`. */
  lemma MoveKeepsSourceDense(tasks: map<TaskId, Task>, lists: map<ListId, BoardList>, id: TaskId, target: ListId,
                             position: Option<nat>)
    requires id in tasks && target in lists && tasks[id].boardList != target
    requires Dense(TaskPositions(tasks, tasks[id].boardList))
    ensures Dense(TaskPositions(Moved(tasks, lists, id, target, position), tasks[id].boardList))
    ensures |TaskPositions(Moved(tasks, lists, id, target, position), tasks[id].boardList)|
         == |TaskPositions(tasks, tasks[id].boardList)| - 1
  {
    MoveSourcePositions(tasks, lists, id, target, position);
    CompactAfterRemoval(TaskPositions(tasks, tasks[id].boardList), id);
  }

  /** The target half of `MovePreservesDensity`. */
  lemma MoveKeepsTargetDense(tasks: map<TaskId, Task>, lists: map<ListId, BoardList>, id: TaskId, target: ListId,
                             position: Option<nat>)
    requires id in tasks && target in lists && tasks[id].boardList != target
    requires Dense(TaskPositions(tasks, target))
    requires position.Some? ==> 1 <= position.value <= |TaskPositions(tasks, target)| + 1
    ensures Dense(TaskPositions(Moved(tasks, lists, id, target, position), target))
    ensures |TaskPositions(Moved(tasks, lists, id, target, position), target)| == |TaskPositions(tasks, target)| + 1
  {
    if position.Some? {
      MoveIntoSlotKeepsDense(tasks, lists, id, target, position.value);
    } else {
      MoveAppendKeepsDense(tasks, lists, id, target);
    }
  }

  /** A move to slot `p` in 1..N+1 of a dense target keeps it dense, with one more task. */
  lemma MoveIntoSlotKeepsDense(tasks: map<TaskId, Task>, lists: map<ListId, BoardList>, id: TaskId, target: ListId,
                               p: nat)
    requires id in tasks && target in lists && tasks[id].boardList != target
    requires Dense(TaskPositions(tasks, target)) && 1 <= p <= |TaskPositions(tasks, target)| + 1
    ensures Dense(TaskPositions(Moved(tasks, lists, id, target, Some(p)), target))
    ensures |TaskPositions(Moved(tasks, lists, id, target, Some(p)), target)| == |TaskPositions(tasks, target)| + 1
  {
    MoveTargetPositions(tasks, lists, id, target, Some(p));
    InsertAtSlot(TaskPositions(tasks, target), id, p);
  }

  /** A move without a position appends to a dense target and keeps it dense, with one more task. */
  lemma MoveAppendKeepsDense(tasks: map<TaskId, Task>, lists: map<ListId, BoardList>, id: TaskId, target: ListId)
    requires id in tasks && target in lists && tasks[id].boardList != target
    requires Dense(TaskPositions(tasks, target))
    ensures Dense(TaskPositions(Moved(tasks, lists, id, target, None), target))
    ensures |TaskPositions(Moved(tasks, lists, id, target, None), target)| == |TaskPositions(tasks, target)| + 1
  {
    MoveTargetPositions(tasks, lists, id, target, None);
    AppendAtEnd(TaskPositions(tasks, target), id);
  }

  /**
   * The source-compaction loop of `move_task_to_list`: every task of `source`
   * whose position is above `above` is moved down by one and saved.
   */
  method CloseGap(tasks: map<TaskId, Task>, source: ListId, above: nat) returns (rows: map<TaskId, Task>)
    ensures rows == CompactSource(tasks, source, above)
  {
    var todo := set t | t in tasks && tasks[t].boardList == source && tasks[t].position > above;
    ghost var toShift := todo;
    rows := tasks;
    while todo != {}
      invariant todo <= toShift
      invariant rows.Keys == tasks.Keys
      invariant forall t :: t in rows && t !in toShift ==> rows[t] == tasks[t]
      invariant forall t :: t in todo ==> rows[t] == tasks[t]
      invariant forall t :: t in toShift && t !in todo ==> rows[t] == tasks[t].(position := tasks[t].position - 1)
      decreases todo
    {
      var t :| t in todo;
      rows := rows[t := rows[t].(position := rows[t].position - 1)];
      todo := todo - {t};
    }
    ghost var compacted := CompactSource(tasks, source, above);
    forall t | t in rows ensures rows[t] == compacted[t] {
      assert t in toShift <==> tasks[t].boardList == source && tasks[t].position > above;
    }
  }

  /**
   * The three write phases of `move_task_to_list` for a task changing lists,
   * run on the transaction's view of the task table: close the gap in the
   * source list, place the task in the target list, relocate it.
   */
  method MoveRows(tasks: map<TaskId, Task>, lists: map<ListId, BoardList>, id: TaskId, target: ListId,
                  position: Option<nat>) returns (rows: map<TaskId, Task>)
    requires id in tasks && target in lists && tasks[id].boardList != target
    ensures rows == Moved(tasks, lists, id, target, position)
  {
    var task := tasks[id];
    rows := CloseGap(tasks, task.boardList, task.position);
    var placed: nat;
    if position.None? {
      placed := MaxPosition(TaskPositions(rows, target)) + 1;
    } else {
      placed := position.value;
      // One bulk UPDATE: position = position + 1 for the target's tasks at or above `placed`.
      rows := ShiftTarget(rows, target, placed);
    }
    rows := rows[id := task.(boardList := target, position := placed, status := lists[target].name)];
  }

  /**
   * Why a move fails: the requested position is negative, which the
   * non-negative position column refuses when the task is saved, so the
   * transaction rolls back.
   */
  datatype MoveError = NegativePosition

  /** A requested position the column accepts, as the position the move places the task at. */
  function AsPosition(position: Option<int>): (p: Option<nat>)
    requires position.None? || position.value >= 0
    ensures p.None? <==> position.None?
    ensures p.Some? ==> p.value == position.value
  {
    if position.None? then None else Some(position.value)
  }

  /**
   * `move_task_to_list`: a task already in the target list is returned
   * unchanged. Otherwise, in one transaction, the source list's gap is closed,
   * the task goes to the requested position (after shifting the target's tasks
   * at or above it up by one) or to the target's max + 1, and its list,
   * position and status (the target list's name) are saved. A negative
   * position fails at that save and the whole move is rolled back.
   */
  method MoveTaskToList(db: Database, id: TaskId, target: ListId, position: Option<int>)
    returns (r: Result<Task, MoveError>)
    requires db.Valid() && id in db.tasks && target in db.lists
    modifies db`tasks
    ensures db.Valid()
    ensures r.Err? <==> old(db.tasks)[id].boardList != target && position.Some? && position.value < 0
    ensures r.Err? ==> r.error == NegativePosition && db.tasks == old(db.tasks)
    ensures r.Ok? && old(db.tasks)[id].boardList == target ==> db.tasks == old(db.tasks) && r.value == db.tasks[id]
    ensures r.Ok? && old(db.tasks)[id].boardList != target ==>
      db.tasks == Moved(old(db.tasks), db.lists, id, target, AsPosition(position)) && r.value == db.tasks[id]
    ensures db.projects == old(db.projects) && db.teamMembers == old(db.teamMembers) && db.members == old(db.members)
    ensures db.boards == old(db.boards) && db.lists == old(db.lists) && db.attachments == old(db.attachments)
    ensures db.nextBoardId == old(db.nextBoardId) && db.nextListId == old(db.nextListId)
    ensures db.nextTaskId == old(db.nextTaskId)
  {
    var task := db.tasks[id];
    if task.boardList == target {
      return Ok(task);
    }
    if position.Some? && position.value < 0 {
      return Err(NegativePosition);
    }
    var placed := AsPosition(position);
    var rows := MoveRows(db.tasks, db.lists, id, target, placed);
    MoveKeepsConsistent(db.projects, db.members, db.boards, db.lists, db.tasks, db.attachments,
                        db.nextBoardId, db.nextListId, db.nextTaskId, id, target, placed);
    db.CommitTasks(rows);
    r := Ok(rows[id]);
  }
}
