/**
 * Boards and their lists. A board belongs to a project and has a name unique
 * within that project; a list belongs to a board, has a name unique within the
 * board and a non-negative position (0 by default). Lists are shown ordered by
 * (position, id). A new board is seeded with the five default lists.
 */
module BoardModels {
  import opened Common
  import Placement

  /** The names of the lists a new board starts with, in display order. */
  const DEFAULT_LISTS: seq<string> := ["Backlog", "Todo", "Progress", "Review", "Done"]

  datatype Board = Board(project: ProjectId, name: string)

  datatype BoardList = BoardList(board: BoardId, name: string, position: nat)

  /** The (board, name) uniqueness constraint on lists. */
  predicate UniqueListNames(lists: map<ListId, BoardList>) {
    forall a, b :: a in lists && b in lists && a != b && lists[a].board == lists[b].board ==>
      lists[a].name != lists[b].name
  }

  /** The (project, name) uniqueness constraint on boards. */
  predicate UniqueBoardNames(boards: map<BoardId, Board>) {
    forall a, b :: a in boards && b in boards && a != b && boards[a].project == boards[b].project ==>
      boards[a].name != boards[b].name
  }

  /** The position map of the lists of one board. */
  function ListPositions(lists: map<ListId, BoardList>, board: BoardId): (pos: map<ListId, nat>)
    ensures forall l :: l in pos <==> l in lists && lists[l].board == board
    ensures forall l :: l in pos ==> pos[l] == lists[l].position
  {
    map l | l in lists && lists[l].board == board :: lists[l].position
  }

  /** True when some list belongs to the board (`board.lists.exists()`). */
  predicate HasLists(lists: map<ListId, BoardList>, board: BoardId) {
    exists l :: l in lists && lists[l].board == board
  }

  lemma DefaultListNamesDistinct()
    ensures |DEFAULT_LISTS| == 5
    ensures forall i, j :: 0 <= i < j < |DEFAULT_LISTS| ==> DEFAULT_LISTS[i] != DEFAULT_LISTS[j]
  {
  }

  /**
   * Because list names are unique within a board, a name found on a board
   * identifies one list of that board.
   */
  lemma NameIdentifiesList(lists: map<ListId, BoardList>, a: ListId, b: ListId)
    requires UniqueListNames(lists) && a in lists && b in lists
    requires lists[a].board == lists[b].board && lists[a].name == lists[b].name
    ensures a == b
  {
  }
}
