/**
 * The board services: seeding a new board with the default lists, and
 * reordering a board's lists from a submitted permutation of their ids. The
 * reorder runs as one transaction on the transaction's view of the list table
 * and is committed at the end, or not at all when the order is rejected.
 */
module BoardServices {
  import opened Common
  import opened Placement
  import opened BoardModels
  import opened Store
  import ProjectModels
  import TaskModels

  /** The ids of the lists of a board. */
  function ListsOf(lists: map<ListId, BoardList>, board: BoardId): set<ListId> {
    ListPositions(lists, board).Keys
  }

  /**
   * The list table after the first `k` default lists have been created for
   * `board`, the counter starting at `next`: the i-th default name gets id
   * `next + i` and position i + 1; every other list is kept.
   */
  function Seeded(lists: map<ListId, BoardList>, board: BoardId, next: nat, k: nat): (r: map<ListId, BoardList>)
    requires k <= |DEFAULT_LISTS|
    ensures forall l :: l in r <==> l in lists || next <= l < next + k
    ensures forall l :: next <= l < next + k ==> r[l] == BoardList(board, DEFAULT_LISTS[l - next], l - next + 1)
    ensures forall l :: l in lists && !(next <= l < next + k) ==> r[l] == lists[l]
  {
    if k == 0 then lists
    else Seeded(lists, board, next, k - 1)[next + k - 1 := BoardList(board, DEFAULT_LISTS[k - 1], k)]
  }

  /**
   * `ensure_default_lists`: a board that already has a list is left alone;
   * otherwise the five default lists are created on it, the i-th default name
   * at position i + 1.
   */
  method EnsureDefaultLists(db: Database, board: BoardId)
    requires db.Valid() && board in db.boards
    modifies db`lists, db`nextListId
    ensures db.Valid()
    ensures HasLists(old(db.lists), board) ==> db.lists == old(db.lists) && db.nextListId == old(db.nextListId)
    ensures !HasLists(old(db.lists), board) ==>
      db.lists == Seeded(old(db.lists), board, old(db.nextListId), |DEFAULT_LISTS|) &&
      db.nextListId == old(db.nextListId) + |DEFAULT_LISTS|
    ensures db.projects == old(db.projects) && db.teamMembers == old(db.teamMembers) && db.members == old(db.members)
    ensures db.boards == old(db.boards) && db.tasks == old(db.tasks) && db.attachments == old(db.attachments)
    ensures db.nextBoardId == old(db.nextBoardId) && db.nextTaskId == old(db.nextTaskId)
  {
    if HasLists(db.lists, board) {
      return;
    }
    SeedBoard(db, board);
  }

  /** The loop of `ensure_default_lists` on a board without lists: the default lists are created in order. */
  method SeedBoard(db: Database, board: BoardId)
    requires db.Valid() && board in db.boards && !HasLists(db.lists, board)
    modifies db`lists, db`nextListId
    ensures db.Valid()
    ensures db.lists == Seeded(old(db.lists), board, old(db.nextListId), |DEFAULT_LISTS|)
    ensures db.nextListId == old(db.nextListId) + |DEFAULT_LISTS|
  {
    ghost var lists0 := db.lists;
    ghost var next0 := db.nextListId;
    var i := 0;
    while i < |DEFAULT_LISTS|
      invariant 0 <= i <= |DEFAULT_LISTS|
      invariant db.Valid()
      invariant db.lists == Seeded(lists0, board, next0, i) && db.nextListId == next0 + i
    {
      CreateDefaultList(db, board, lists0, next0, i);
      i := i + 1;
    }
  }

  /**
   * One iteration of `ensure_default_lists`: the i-th default list is created
   * on the board, at position i + 1, under the next list id.
   */
  method CreateDefaultList(db: Database, board: BoardId, ghost lists0: map<ListId, BoardList>, ghost next0: nat, i: nat)
    requires db.Valid() && board in db.boards && !HasLists(lists0, board) && i < |DEFAULT_LISTS|
    requires db.lists == Seeded(lists0, board, next0, i) && db.nextListId == next0 + i
    modifies db`lists, db`nextListId
    ensures db.Valid()
    ensures db.lists == Seeded(lists0, board, next0, i + 1) && db.nextListId == next0 + i + 1
  {
    SeededNamesFree(lists0, board, next0, i);
    ghost var seeded := Seeded(lists0, board, next0, i)[next0 + i := BoardList(board, DEFAULT_LISTS[i], i + 1)];
    assert Seeded(lists0, board, next0, i + 1) == seeded;
    var id := db.InsertList(BoardList(board, DEFAULT_LISTS[i], i + 1));
  }

  /** While the board is being seeded, the next default name is still free on it. */
  lemma SeededNamesFree(lists: map<ListId, BoardList>, board: BoardId, next: nat, k: nat)
    requires !HasLists(lists, board) && k < |DEFAULT_LISTS|
    ensures forall o :: o in Seeded(lists, board, next, k) && Seeded(lists, board, next, k)[o].board == board ==>
      Seeded(lists, board, next, k)[o].name != DEFAULT_LISTS[k]
  {
    var r := Seeded(lists, board, next, k);
    forall o | o in r && r[o].board == board ensures r[o].name != DEFAULT_LISTS[k] {
    }
  }

  /**
   * Seeding the first `k` default lists gives the board exactly the lists under
   * ids next..next+k-1, where the list under id `next + i` sits at position
   * i + 1 and carries the i-th default name.
   */
  lemma SeededPositions(lists: map<ListId, BoardList>, board: BoardId, next: nat, k: nat)
    requires !HasLists(lists, board) && k <= |DEFAULT_LISTS|
    ensures forall l :: l in ListPositions(Seeded(lists, board, next, k), board) <==> next <= l < next + k
    ensures forall l :: l in ListPositions(Seeded(lists, board, next, k), board) ==>
      ListPositions(Seeded(lists, board, next, k), board)[l] == l - next + 1 &&
      Seeded(lists, board, next, k)[l].name == DEFAULT_LISTS[l - next]
  {
    var r := Seeded(lists, board, next, k);
    forall l | l in ListPositions(r, board) ensures next <= l < next + k {
    }
  }

  /** Seeding the first `k` default lists leaves the board dense with k lists. */
  lemma SeededDense(lists: map<ListId, BoardList>, board: BoardId, next: nat, k: nat)
    requires !HasLists(lists, board) && k <= |DEFAULT_LISTS|
    ensures Dense(ListPositions(Seeded(lists, board, next, k), board))
    ensures |ListPositions(Seeded(lists, board, next, k), board)| == k
  {
    var pos := ListPositions(Seeded(lists, board, next, k), board);
    SeededPositions(lists, board, next, k);
    assert Injective(pos);
    InjectiveValuesCard(pos);
    assert pos.Values == Slots(k) by {
      forall v | v in Slots(k) ensures v in pos.Values {
        assert pos[next + v - 1] == v;
      }
    }
  }

  /**
   * After seeding, the board is dense with the five default lists, and listing
   * it by (position, id) follows the ids the counter handed out, so the names
   * come in their declared order.
   */
  lemma SeededBoardIsDense(lists: map<ListId, BoardList>, board: BoardId, next: nat)
    requires !HasLists(lists, board)
    ensures Dense(ListPositions(Seeded(lists, board, next, |DEFAULT_LISTS|), board))
    ensures |ListPositions(Seeded(lists, board, next, |DEFAULT_LISTS|), board)| == |DEFAULT_LISTS|
    ensures forall l :: l in ListPositions(Seeded(lists, board, next, |DEFAULT_LISTS|), board) <==>
      next <= l < next + |DEFAULT_LISTS|
    ensures forall a, b ::
      a in ListPositions(Seeded(lists, board, next, |DEFAULT_LISTS|), board) &&
      b in ListPositions(Seeded(lists, board, next, |DEFAULT_LISTS|), board) && a < b
      ==> ListedBefore(ListPositions(Seeded(lists, board, next, |DEFAULT_LISTS|), board), a, b)
  {
    SeededPositions(lists, board, next, |DEFAULT_LISTS|);
    SeededDense(lists, board, next, |DEFAULT_LISTS|);
  }

  /** Seeding gives the board a list, so running it again changes nothing. */
  lemma SeedingIsIdempotent(lists: map<ListId, BoardList>, board: BoardId, next: nat)
    ensures HasLists(Seeded(lists, board, next, |DEFAULT_LISTS|), board)
  {
    var r := Seeded(lists, board, next, |DEFAULT_LISTS|);
    assert next in r && r[next].board == board;
  }

  lemma SeededResolves(lists: map<ListId, BoardList>, boards: map<BoardId, Board>, board: BoardId, next: nat, k: nat)
    requires ListsResolve(lists, boards, next) && board in boards && k <= |DEFAULT_LISTS|
    ensures ListsResolve(Seeded(lists, board, next, k), boards, next + k)
  {
    var r := Seeded(lists, board, next, k);
    forall l | l in r ensures r[l].board in boards && l < next + k {
      if !(next <= l < next + k) {
        assert r[l] == lists[l];
      }
    }
  }

  lemma SeededUnique(lists: map<ListId, BoardList>, boards: map<BoardId, Board>, board: BoardId, next: nat, k: nat)
    requires ListsResolve(lists, boards, next) && UniqueListNames(lists) && !HasLists(lists, board)
    requires k <= |DEFAULT_LISTS|
    ensures UniqueListNames(Seeded(lists, board, next, k))
  {
    var r := Seeded(lists, board, next, k);
    forall a, b | a in r && b in r && a != b && r[a].board == r[b].board ensures r[a].name != r[b].name {
      if next <= a < next + k && next <= b < next + k {
        assert r[a].name == DEFAULT_LISTS[a - next] && r[b].name == DEFAULT_LISTS[b - next];
      } else if !(next <= a < next + k) && !(next <= b < next + k) {
        assert r[a] == lists[a] && r[b] == lists[b];
      }
    }
  }

  /**
   * Seeding an existing board that has no list keeps the store consistent:
   * the new lists belong to the board, take fresh ids and bring distinct names
   * to a board that had none.
   */
  lemma SeedingKeepsConsistent(projects: map<ProjectId, ProjectModels.Project>,
                               members: ProjectModels.Memberships, boards: map<BoardId, Board>,
                               lists: map<ListId, BoardList>, tasks: map<TaskId, TaskModels.Task>,
                               attachments: map<AttachmentId, TaskModels.Attachment>,
                               nextBoardId: nat, nextListId: nat, nextTaskId: nat, board: BoardId)
    requires Consistent(projects, members, boards, lists, tasks, attachments, nextBoardId, nextListId, nextTaskId)
    requires board in boards && !HasLists(lists, board)
    ensures Consistent(projects, members, boards, Seeded(lists, board, nextListId, |DEFAULT_LISTS|), tasks, attachments,
                       nextBoardId, nextListId + |DEFAULT_LISTS|, nextTaskId)
  {
    var r := Seeded(lists, board, nextListId, |DEFAULT_LISTS|);
    SeededResolves(lists, boards, board, nextListId, |DEFAULT_LISTS|);
    SeededUnique(lists, boards, board, nextListId, |DEFAULT_LISTS|);
    assert TasksResolve(tasks, r, projects, nextTaskId);
  }

  /** The list table after an accepted reorder of `board`: each of its lists takes its rank. */
  function ReorderedLists(lists: map<ListId, BoardList>, board: BoardId, order: seq<ListId>): map<ListId, BoardList> {
    var rank := RankMap(order);
    map l | l in lists :: if lists[l].board == board && l in rank then lists[l].(position := rank[l]) else lists[l]
  }

  /** The lists of `board` whose stored position differs from their rank: the rows a reorder saves. */
  function ListRankChanges(lists: map<ListId, BoardList>, board: BoardId, order: seq<ListId>): set<ListId> {
    var rank := RankMap(order);
    set l | l in lists && lists[l].board == board && l in rank && lists[l].position != rank[l]
  }

  /**
   * The write loop of `reorder_board_lists`, run on the transaction's view of
   * the list table once the order has been accepted: every list of the board
   * whose position differs from its rank is given its rank and saved.
   */
  method AssignListRanks(lists: map<ListId, BoardList>, board: BoardId, order: seq<ListId>)
    returns (rows: map<ListId, BoardList>, written: set<ListId>)
    requires Elems(order) == ListsOf(lists, board)
    ensures rows == ReorderedLists(lists, board, order)
    ensures written == ListRankChanges(lists, board, order)
  {
    var rank := RankMap(order);
    var members := ListsOf(lists, board);
    assert rank.Keys == members;
    var todo := members;
    rows, written := lists, {};
    while todo != {}
      invariant todo <= members
      invariant rows.Keys == lists.Keys
      invariant forall l :: l in rows && l !in members ==> rows[l] == lists[l]
      invariant forall l :: l in todo ==> rows[l] == lists[l]
      invariant forall l :: l in members && l !in todo ==> rows[l] == lists[l].(position := rank[l])
      invariant forall l :: l in written <==> l in members && l !in todo && lists[l].position != rank[l]
      decreases todo
    {
      var l :| l in todo;
      // Every list of the board has a rank, so the source's second check
      // ("Invalid list id in order payload") cannot fire once the first passed.
      assert l in rank;
      if rows[l].position != rank[l] {
        rows := rows[l := rows[l].(position := rank[l])];
        written := written + {l};
      }
      todo := todo - {l};
    }
    assert forall l :: l in members <==> l in lists && lists[l].board == board;
    ghost var reordered := ReorderedLists(lists, board, order);
    forall l | l in rows ensures rows[l] == reordered[l] {
    }
    assert written == ListRankChanges(lists, board, order);
  }

  /**
   * `reorder_board_lists`: accepts the order only when it has as many ids as
   * the board has lists and the same id set; then gives the k-th id position
   * k + 1, saving only the lists whose position changes, and commits. A
   * rejected order changes nothing. `written` is the set of lists saved.
   */
  method ReorderBoardLists(db: Database, board: BoardId, order: seq<ListId>)
    returns (accepted: bool, written: set<ListId>)
    requires db.Valid() && board in db.boards
    modifies db`lists
    ensures db.Valid()
    ensures accepted == AcceptsOrder(order, ListsOf(old(db.lists), board))
    ensures db.lists == if accepted then ReorderedLists(old(db.lists), board, order) else old(db.lists)
    ensures written == if accepted then ListRankChanges(old(db.lists), board, order) else {}
  {
    var existing := ListsOf(db.lists, board);
    if |order| != |existing| || existing != Elems(order) {
      return false, {};
    }
    var rows;
    rows, written := AssignListRanks(db.lists, board, order);
    ReorderListsKeepsConsistent(db.projects, db.members, db.boards, db.lists, db.tasks, db.attachments,
                                db.nextBoardId, db.nextListId, db.nextTaskId, board, order);
    db.CommitLists(rows);
    accepted := true;
  }

  /** After an accepted reorder the board's position map is the rank map of the order. */
  lemma ReorderedListPositions(lists: map<ListId, BoardList>, board: BoardId, order: seq<ListId>)
    requires AcceptsOrder(order, ListsOf(lists, board))
    ensures ListPositions(ReorderedLists(lists, board, order), board) == RankMap(order)
  {
    var r := ReorderedLists(lists, board, order);
    var pos := ListPositions(r, board);
    assert pos.Keys == RankMap(order).Keys;
    forall l | l in pos ensures pos[l] == RankMap(order)[l] {
      assert r[l] == lists[l].(position := RankMap(order)[l]);
    }
  }

  /** A reorder of one board leaves the list positions of every other board as they were. */
  lemma ReorderLeavesOtherBoards(lists: map<ListId, BoardList>, board: BoardId, order: seq<ListId>, other: BoardId)
    requires other != board
    ensures ListPositions(ReorderedLists(lists, board, order), other) == ListPositions(lists, other)
  {
    var r := ReorderedLists(lists, board, order);
    assert ListPositions(r, other).Keys == ListPositions(lists, other).Keys;
  }

  /**
   * An accepted reorder puts the k-th submitted id at position k + 1, so the
   * board's positions become exactly 1..N and list in the submitted order.
   */
  lemma ReorderListsRanksAndDensity(lists: map<ListId, BoardList>, board: BoardId, order: seq<ListId>)
    requires AcceptsOrder(order, ListsOf(lists, board))
    ensures forall k :: 0 <= k < |order| ==>
      order[k] in ReorderedLists(lists, board, order) && ReorderedLists(lists, board, order)[order[k]].position == k + 1
    ensures Dense(ListPositions(ReorderedLists(lists, board, order), board))
    ensures ListPositions(ReorderedLists(lists, board, order), board).Values == Slots(|order|)
  {
    AcceptsExactlyPermutations(order, ListsOf(lists, board));
    ReorderedListPositions(lists, board, order);
    RankMapDense(order);
    DenseIsOneToN(RankMap(order));
    forall k | 0 <= k < |order|
      ensures order[k] in ReorderedLists(lists, board, order) && ReorderedLists(lists, board, order)[order[k]].position == k + 1
    {
      RankOfIndex(order, k);
      assert order[k] in ListPositions(ReorderedLists(lists, board, order), board);
    }
  }

  /** After an accepted reorder, listing the board by (position, id) gives back the submitted order. */
  lemma ReorderBoardListsInOrder(lists: map<ListId, BoardList>, board: BoardId, order: seq<ListId>, i: nat, j: nat)
    requires AcceptsOrder(order, ListsOf(lists, board)) && i < j < |order|
    ensures order[i] in ListPositions(ReorderedLists(lists, board, order), board)
    ensures order[j] in ListPositions(ReorderedLists(lists, board, order), board)
    ensures ListedBefore(ListPositions(ReorderedLists(lists, board, order), board), order[i], order[j])
  {
    AcceptsExactlyPermutations(order, ListsOf(lists, board));
    ReorderedListPositions(lists, board, order);
    RankMapListsInOrder(order, i, j);
  }

  /** A list reorder rewrites positions only, so it keeps the store consistent. */
  lemma ReorderListsKeepsConsistent(projects: map<ProjectId, ProjectModels.Project>, members: ProjectModels.Memberships,
                                    boards: map<BoardId, Board>, lists: map<ListId, BoardList>,
                                    tasks: map<TaskId, TaskModels.Task>, attachments: map<AttachmentId, TaskModels.Attachment>,
                                    nextBoardId: nat, nextListId: nat, nextTaskId: nat, board: BoardId, order: seq<ListId>)
    requires Consistent(projects, members, boards, lists, tasks, attachments, nextBoardId, nextListId, nextTaskId)
    ensures Consistent(projects, members, boards, ReorderedLists(lists, board, order), tasks, attachments,
                       nextBoardId, nextListId, nextTaskId)
  {
    var r := ReorderedLists(lists, board, order);
    forall a | a in r ensures r[a].(position := lists[a].position) == lists[a] {
    }
    assert ListsResolve(r, boards, nextListId);
    assert UniqueListNames(r);
    ListsReplaced(projects, members, boards, lists, tasks, attachments, nextBoardId, nextListId, nextTaskId, r);
  }

  /**
   * Reordering a board is idempotent: the same order is accepted again, leaves
   * the table as it is and saves no list.
   */
  lemma ReorderListsIdempotent(lists: map<ListId, BoardList>, board: BoardId, order: seq<ListId>)
    requires AcceptsOrder(order, ListsOf(lists, board))
    ensures AcceptsOrder(order, ListsOf(ReorderedLists(lists, board, order), board))
    ensures ReorderedLists(ReorderedLists(lists, board, order), board, order) == ReorderedLists(lists, board, order)
    ensures ListRankChanges(ReorderedLists(lists, board, order), board, order) == {}
  {
    ReorderedListPositions(lists, board, order);
    var r := ReorderedLists(lists, board, order);
    assert ListsOf(r, board) == RankMap(order).Keys;
  }
}
