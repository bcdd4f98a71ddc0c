/**
 * Creating a list through the list serializer: the (board, name) uniqueness
 * check rejects a name already used on the board; a list created without a
 * position goes after the board's last list (max + 1, or 1 on an empty board);
 * an explicit position, 0 included, is stored as given and no other list is
 * shifted.
 */
module BoardSerializers {
  import opened Common
  import opened Placement
  import opened BoardModels
  import opened Store
  import ProjectModels
  import TaskModels

  datatype ListError = DuplicateName

  /** True when some list of `board` already carries `name`. */
  predicate NameTaken(lists: map<ListId, BoardList>, board: BoardId, name: string) {
    exists l :: l in lists && lists[l].board == board && lists[l].name == name
  }

  /** The position a new list is stored at: the one supplied, or the board's max + 1. */
  function NewListPosition(lists: map<ListId, BoardList>, board: BoardId, position: Option<nat>): (p: nat)
    ensures position.Some? ==> p == position.value
    ensures position.None? ==> p == MaxPosition(ListPositions(lists, board)) + 1
    ensures position.None? ==> forall l :: l in lists && lists[l].board == board ==> lists[l].position < p
    ensures position.None? && ListPositions(lists, board) == map[] ==> p == 1
  {
    if position.Some? then position.value else MaxPosition(ListPositions(lists, board)) + 1
  }

  /**
   * `ListSerializer.create` behind the uniqueness validation: a duplicate name
   * is rejected and nothing is written; otherwise one list is inserted, at the
   * position `NewListPosition` gives, and no other list changes.
   */
  method CreateList(db: Database, board: BoardId, name: string, position: Option<nat>)
    returns (r: Result<ListId, ListError>)
    requires db.Valid() && board in db.boards
    modifies db
    ensures db.Valid()
    ensures NameTaken(old(db.lists), board, name) ==>
      r == Err(DuplicateName) && db.lists == old(db.lists) && db.nextListId == old(db.nextListId)
    ensures !NameTaken(old(db.lists), board, name) ==>
      r == Ok(old(db.nextListId)) && db.nextListId == old(db.nextListId) + 1 &&
      db.lists == old(db.lists)[r.value := BoardList(board, name, NewListPosition(old(db.lists), board, position))]
    ensures db.projects == old(db.projects) && db.teamMembers == old(db.teamMembers) && db.members == old(db.members)
    ensures db.boards == old(db.boards) && db.tasks == old(db.tasks) && db.attachments == old(db.attachments)
    ensures db.nextBoardId == old(db.nextBoardId) && db.nextTaskId == old(db.nextTaskId)
  {
    if exists l :: l in db.lists && db.lists[l].board == board && db.lists[l].name == name {
      return Err(DuplicateName);
    }
    var p: nat;
    if position.None? {
      p := MaxPosition(ListPositions(db.lists, board)) + 1;
    } else {
      p := position.value;
    }
    var id := db.InsertList(BoardList(board, name, p));
    r := Ok(id);
  }

  /** The board's positions after a list is created under a fresh id. */
  lemma CreatedListPositions(lists: map<ListId, BoardList>, board: BoardId, name: string, position: Option<nat>, id: ListId)
    requires id !in lists
    ensures ListPositions(lists[id := BoardList(board, name, NewListPosition(lists, board, position))], board)
         == ListPositions(lists, board)[id := NewListPosition(lists, board, position)]
  {
    var r := lists[id := BoardList(board, name, NewListPosition(lists, board, position))];
    assert ListPositions(r, board).Keys == ListPositions(lists, board).Keys + {id};
  }

  /**
   * A list created without a position keeps a dense board dense: it lands at
   * N + 1 and the board now has N + 1 lists.
   */
  lemma AppendedListKeepsDensity(lists: map<ListId, BoardList>, board: BoardId, name: string, id: ListId)
    requires id !in lists && Dense(ListPositions(lists, board))
    ensures NewListPosition(lists, board, None) == |ListPositions(lists, board)| + 1
    ensures Dense(ListPositions(lists[id := BoardList(board, name, NewListPosition(lists, board, None))], board))
  {
    CreatedListPositions(lists, board, name, None, id);
    DenseAppendPosition(ListPositions(lists, board));
    AppendAtEnd(ListPositions(lists, board), id);
  }

  /**
   * Nothing is shifted to make room for an explicit position: when another
   * list of the board already sits there, the two lists now share it.
   */
  lemma ExplicitPositionCanCollide(lists: map<ListId, BoardList>, board: BoardId, name: string, id: ListId, other: ListId)
    requires id !in lists && other in lists && lists[other].board == board
    ensures var r := lists[id := BoardList(board, name, NewListPosition(lists, board, Some(lists[other].position)))];
      other in ListPositions(r, board) && id in ListPositions(r, board) &&
      ListPositions(r, board)[id] == ListPositions(r, board)[other] &&
      !Injective(ListPositions(r, board))
  {
    var r := lists[id := BoardList(board, name, NewListPosition(lists, board, Some(lists[other].position)))];
    var pos := ListPositions(r, board);
    assert id in pos && other in pos && id != other;
    assert pos[id] == pos[other];
  }

  /** Creating a list on an existing board under a free name keeps the store consistent. */
  lemma CreateListKeepsConsistent(projects: map<ProjectId, ProjectModels.Project>, members: ProjectModels.Memberships,
                                  boards: map<BoardId, Board>, lists: map<ListId, BoardList>,
                                  tasks: map<TaskId, TaskModels.Task>, attachments: map<AttachmentId, TaskModels.Attachment>,
                                  nextBoardId: nat, nextListId: nat, nextTaskId: nat,
                                  board: BoardId, name: string, position: Option<nat>)
    requires Consistent(projects, members, boards, lists, tasks, attachments, nextBoardId, nextListId, nextTaskId)
    requires board in boards && !NameTaken(lists, board, name)
    ensures Consistent(projects, members, boards,
                       lists[nextListId := BoardList(board, name, NewListPosition(lists, board, position))],
                       tasks, attachments, nextBoardId, nextListId + 1, nextTaskId)
  {
    ListInsertKeepsConsistent(projects, members, boards, lists, tasks, attachments, nextBoardId, nextListId, nextTaskId,
                              BoardList(board, name, NewListPosition(lists, board, position)));
  }
}
