# Kanban board placement and membership rules, modelled in Dafny

This project models the core of a Django kanban API: projects with memberships and roles, boards, lists and tasks.
It covers the rules that decide where lists and tasks sit and who may touch them:

- **Ordering.** Tasks and lists are reordered from a submitted permutation of ids.
  A task moves between lists by closing the gap it leaves in the source list and opening or appending a slot in the target list.
  A new list or task is appended at `max + 1`.
  A new board is seeded with its five default lists.
- **Serializers.** Validation and creation/update rules for tasks and lists, including the status a task derives from its list's name.
- **Membership.** Adding and removing members, with the last-manager guard.
- **Permissions.** The object-level permission checks.
- **Notifications.** The events a task save enqueues.
- **Settings.** The environment readers and the configuration checks of the settings module.

Layout (one module per source file, plus two shared modules):

| file | module | models |
|---|---|---|
| `common.dfy` | `Common` | key types, `Option`, `Result` |
| `placement.dfy` | `Placement` | a container's position map; density; rank maps; gap closing, slot opening, append |
| `projects_models.dfy`, `boards_models.dfy`, `tasks_models.dfy` | `ProjectModels`, `BoardModels`, `TaskModels` | the rows, their defaults, uniqueness constraints and `save` behaviour |
| `store.dfy` | `Store` | the `Database` class: every table as a map field plus the auto-increment counters; `Consistent` (foreign keys resolve, keys come from the counters, uniqueness holds) and one lemma per write showing it is kept |
| `tasks_services.dfy`, `boards_services.dfy` | `TaskServices`, `BoardServices` | reorder, move, default-list seeding |
| `tasks_serializers.dfy`, `boards_serializers.dfy` | `TaskSerializers`, `BoardSerializers` | validate / create / update |
| `projects_services.dfy`, `projects_permissions.dfy` | `ProjectServices`, `ProjectPermissions` | membership changes, permission checks |
| `notifications.dfy`, `settings.dfy` | `Notifications`, `Settings` | signal decisions, configuration |

How operations are modelled:

- **State-changing services are methods on a `Database`.** Each states its exact new state through a specification function, e.g. `db.tasks == Moved(old(db.tasks), ...)`. Each requires and ensures `Valid()`, the store's consistency invariant, and discharges it with the matching `...KeepsConsistent` lemma.
- **Loops become methods with invariants.** The write loops of the reorders and of the move (rank assignment, gap closing) run inside `transaction.atomic`. They run over the transaction's view of the table, which `CommitTasks` or `CommitLists` writes back at the end.
- **Default-list seeding has no transaction.** `boards/services.py` is not atomic, so `SeedBoard` inserts each default list into the live store in turn, and the store is consistent after every insert.
- **Properties are lemmas about the specification functions.** These cover density, ordering, idempotence, what is left unchanged, and consistency of the store.

Positions are not kept dense by the code:

- Positions are not kept dense by the code. A list or task created with an explicit position, and a same-list update with a position, shift nothing, so two rows can share a position.
- A move with a position outside `1..N+1` leaves gaps.

Density is therefore proved as preserved under stated conditions, not as an invariant. `ExplicitPositionCanCollide` and `SameListPositionCanCollide` exhibit the collisions.

## Model

| member | source | states |
|---|---|---|
| Placement.AcceptsExactlyPermutations | tasks/services.py:14-16 | the length-and-set check accepts an order exactly when it lists each id of the container once and nothing else |
| Placement.RankOfIndex | tasks/services.py:18 | for a duplicate-free order, the id at index k gets rank k + 1 |
| Placement.RankMapDense | tasks/services.py:18 | the ranks of a permutation form a dense ordering (positions 1..N, no two equal) with N entries |
| Placement.DenseIsOneToN | tasks/services.py:18-26 | a dense container of N members occupies exactly the positions 1..N |
| Placement.RankMapListsInOrder | tasks/models.py:30-31 | after ranking, ordering by (position, id) lists order[i] before order[j] whenever i < j |
| Placement.MaxPosition | tasks/services.py:43-44 | the aggregate `Max(position) or 0`: at least every position, attained when the container is non-empty, 0 when it is empty |
| Placement.DenseAppendPosition | tasks/services.py:43-44 | on a dense container of N members the append position max + 1 is N + 1 |
| Placement.CompactedWithout | tasks/services.py:36-39 | closing a gap and dropping the departing member commute |
| Placement.CompactAfterRemoval | tasks/services.py:35-39 | removing a member and moving every higher position down by one keeps a dense container dense, with N - 1 members |
| Placement.InsertAtSlot | tasks/services.py:45-50 | moving every position >= p up by one and placing a new member at p in 1..N+1 keeps density, with N + 1 members |
| Placement.AppendAtEnd | tasks/services.py:42-44 | placing a new member at max + 1 keeps density, with N + 1 members |
| BoardModels.DefaultListNamesDistinct | boards/models.py:7 | there are exactly five default list names and they are pairwise distinct |
| BoardModels.NameIdentifiesList | boards/models.py:33 | under the (board, name) constraint, two lists of one board with the same name are the same list |
| ProjectModels.ManagersOf | projects/models.py:42-44 | a user is among a project's managers exactly when their membership in it has the manager role |
| TaskModels.WithDerivedStatus | tasks/models.py:33-37 | saving sets the status to the list's name when that name is non-empty, leaves the task as given when it is empty, and changes no other field |
| TaskModels.WithDefaultFilename | tasks/models.py:65-68 | a blank filename is filled from the file's name; a filename already given is kept; the task and file are untouched |
| Store.CountersAreFresh | tasks/models.py:11 | in a consistent store each counter is ahead of every key in use, so an insert takes a fresh key |
| Store.BoardInsertKeepsConsistent | boards/models.py:16-18 | inserting a board of an existing project under a name free in that project keeps the store consistent |
| Store.ListInsertKeepsConsistent | boards/models.py:30-33 | inserting a list on an existing board under a name free on that board keeps the store consistent |
| Store.TaskSaveKeepsConsistent | tasks/models.py:17-18 | saving a task whose project and list exist keeps the store consistent |
| Store.AttachmentSaveKeepsConsistent | tasks/models.py:60 | saving an attachment of an existing task keeps the store consistent |
| Store.Database.constructor | tasks/models.py:11 | a new store is empty, consistent, and its counters start at 1 |
| Store.Database.CommitTasks | tasks/services.py:12-53 | a transaction's task rows that keep the store consistent replace the task table; the store stays consistent and nothing else changes |
| Store.Database.CommitLists | boards/services.py:16-30 | a transaction's list rows that keep the store consistent replace the list table; the store stays consistent and nothing else changes |
| Store.Database.InsertBoard | boards/models.py:10-18 | a board of an existing project under a free name is stored under the next board id, which then advances; the store stays consistent and no other table changes |
| Store.Database.InsertList | boards/serializers.py:24 | a list of an existing board is stored under the next list id, which then advances; the store stays consistent and no other table changes |
| Store.Database.SaveTask | tasks/models.py:33-37 | the row stored is the task with its derived status; the store stays consistent and no other table changes |
| Store.Database.InsertTask | tasks/serializers.py:70 | the task, with its derived status, is stored under the next task id, which then advances; the store stays consistent |
| Store.Database.SaveAttachment | tasks/models.py:65-68 | the attachment of an existing task is stored with its default filename; the store stays consistent and nothing else changes |
| TaskServices.AssignRanks | tasks/services.py:19-26 | the write loop leaves the table equal to `Reordered` and saves exactly the tasks whose position differs from their rank |
| TaskServices.ReorderTasks | tasks/services.py:12-26 | the order is accepted exactly when it has the list's length and id set; if accepted the tasks take their ranks, otherwise nothing changes; the saved tasks are those whose position changed; the store stays consistent |
| TaskServices.ReorderedPositions | tasks/services.py:18-26 | after an accepted reorder the list's position map is exactly the rank map of the order |
| TaskServices.ReorderLeavesOtherLists | tasks/services.py:19-20 | a reorder leaves the positions of every other list as they were |
| TaskServices.ReorderRanksAndDensity | tasks/services.py:18-26 | the k-th submitted id ends at position k + 1, and the list's positions become exactly 1..N |
| TaskServices.ReorderListsInOrder | tasks/services.py:18-26 | after an accepted reorder, listing by (position, id) gives back the submitted order |
| TaskServices.ReorderIdempotent | tasks/services.py:24-26 | the same order is accepted again, leaves the table unchanged and saves no task |
| TaskServices.ReorderKeepsConsistent | tasks/services.py:24-26 | a reorder rewrites positions only, so the store stays consistent |
| TaskServices.CompactSource | tasks/services.py:36-39 | closing the source gap keeps every task and changes nothing but positions |
| TaskServices.ShiftTarget | tasks/services.py:47 | opening the target slot keeps every task and changes nothing but positions |
| TaskServices.MoveRewritesOnlyPositions | tasks/services.py:35-47 | a move changes no field of any other task except its position |
| TaskServices.MoveRelocates | tasks/services.py:31-33 | a move into the task's own list changes nothing; otherwise the task lands in the target, carries the target's name as status, and keeps its other data |
| TaskServices.MoveSourcePositions | tasks/services.py:35-39 | after a move the source list's positions are its old ones, with the task removed and every higher position lowered by one |
| TaskServices.MoveTargetPositions | tasks/services.py:42-50 | after a move the target list's positions are its old ones, either opened at p with the task at p, or with the task appended at max + 1 |
| TaskServices.MoveLeavesOtherLists | tasks/services.py:35-52 | a move leaves the positions of every third list as they were |
| TaskServices.MovePreservesDensity | tasks/services.py:35-50 | with dense lists and p in 1..N+1 (or no p), both lists stay dense; the source loses one task and the target gains one |
| TaskServices.MoveKeepsConsistent | tasks/services.py:29-53 | a move into an existing list keeps the store consistent |
| TaskServices.CloseGap | tasks/services.py:36-39 | the decrement loop leaves the table equal to `CompactSource` |
| TaskServices.MoveRows | tasks/services.py:35-52 | the move's writes, in order, leave the table equal to `Moved` |
| TaskServices.AsPosition | tasks/models.py:25 | a position the `PositiveIntegerField` accepts is kept as given, and no position stays no position |
| TaskServices.MoveTaskToList | tasks/services.py:29-53 | a move into the task's own list returns it and changes nothing; a move elsewhere with a negative position is refused with `NegativePosition` and nothing changes, as the field's `IntegrityError` rolls the transaction back (tasks/models.py:25); otherwise the stored tasks become `Moved(old tasks, ...)`, the moved task is returned, and the store stays consistent |
| BoardServices.Seeded | boards/services.py:12-13 | seeding k default lists adds ids next..next+k-1, the one under next + i carrying the i-th default name at position i + 1, and keeps every other list |
| BoardServices.EnsureDefaultLists | boards/services.py:9-13 | a board with a list is left alone; otherwise the five default lists are created on it, in order, and the counter advances by five; the store stays consistent |
| BoardServices.SeedBoard | boards/services.py:12-13 | on a board with no list, the loop inserts the five default lists one by one, leaving the table equal to `Seeded`, and the store is consistent after each insert |
| BoardServices.CreateDefaultList | boards/services.py:13 | one step of seeding inserts the i-th default list at position i + 1 under the next id, taking `Seeded` from i to i + 1 lists |
| BoardServices.SeededNamesFree | boards/services.py:12-13 | while seeding, the next default name is still free on the board, so the uniqueness constraint never refuses it |
| BoardServices.SeededPositions | boards/services.py:12-13 | after seeding k lists the board holds exactly those k lists, the i-th at position i + 1 |
| BoardServices.SeededDense | boards/services.py:12-13 | after seeding k lists the board is dense with k lists |
| BoardServices.SeededBoardIsDense | boards/services.py:12-13 | after seeding, the board is dense with five lists, and listing it by (position, id) follows the declared name order |
| BoardServices.SeedingIsIdempotent | boards/services.py:10-11 | a seeded board has lists, so a second call changes nothing |
| BoardServices.SeedingKeepsConsistent | boards/services.py:12-13 | seeding an existing board that has no list keeps the store consistent |
| BoardServices.AssignListRanks | boards/services.py:23-30 | the write loop leaves the table equal to `ReorderedLists` and saves exactly the lists whose position differs from their rank |
| BoardServices.ReorderBoardLists | boards/services.py:16-30 | the order is accepted exactly when it has the board's length and id set; if accepted the lists take their ranks, otherwise nothing changes; the store stays consistent |
| BoardServices.ReorderedListPositions | boards/services.py:22-30 | after an accepted reorder the board's position map is the rank map of the order |
| BoardServices.ReorderLeavesOtherBoards | boards/services.py:23 | a reorder leaves the list positions of every other board as they were |
| BoardServices.ReorderListsRanksAndDensity | boards/services.py:22-30 | the k-th submitted id ends at position k + 1, the board is dense, and its positions are exactly 1..N |
| BoardServices.ReorderBoardListsInOrder | boards/services.py:22-30 | after an accepted reorder, listing by (position, id) gives back the submitted order |
| BoardServices.ReorderListsKeepsConsistent | boards/services.py:28-30 | a list reorder rewrites positions only, so the store stays consistent |
| BoardServices.ReorderListsIdempotent | boards/services.py:28-30 | the same order is accepted again, changes nothing and saves no list |
| BoardSerializers.NewListPosition | boards/serializers.py:21-23 | a supplied position, 0 included, is used as given; otherwise it is the board's `Max or 0` plus 1, which exceeds every position on the board and is 1 on an empty board |
| BoardSerializers.CreateList | boards/serializers.py:19-24 | a name already used on the board is refused and nothing is written; otherwise exactly one list is added, under the next id, at `NewListPosition`; the store stays consistent |
| BoardSerializers.CreatedListPositions | boards/serializers.py:19-24 | creating a list adds one entry to the board's position map and shifts no other list |
| BoardSerializers.AppendedListKeepsDensity | boards/serializers.py:21-23 | a list created without a position on a dense board of N lists lands at N + 1, and the board stays dense |
| BoardSerializers.ExplicitPositionCanCollide | boards/serializers.py:21 | an explicit position equal to an existing list's leaves two lists at the same position |
| BoardSerializers.CreateListKeepsConsistent | boards/serializers.py:24 | creating a list on an existing board under a free name keeps the store consistent |
| TaskSerializers.EffectiveProject | tasks/serializers.py:59 | the payload's project when supplied, else the instance's, else none |
| TaskSerializers.EffectiveList | tasks/serializers.py:60 | the payload's list when supplied, else the instance's, else none |
| TaskSerializers.ValidateTask | tasks/serializers.py:58-63 | accepted exactly when the project or the list is unknown, or the list's board belongs to that project |
| TaskSerializers.PayloadOverridesInstance | tasks/serializers.py:59-62 | when the payload names both project and list, the instance plays no part and the check is "list's board is in that project" |
| TaskSerializers.OmittedFieldsFallBack | tasks/serializers.py:59-62 | omitted fields are checked against the instance's project and list |
| TaskSerializers.NewTaskPosition | tasks/serializers.py:66-69 | a supplied position is used as given; otherwise it is the list's `Max or 0` plus 1, which exceeds every position in the list and is 1 for an empty list |
| TaskSerializers.CreateTask | tasks/serializers.py:65-71 | a list outside the task's project is refused and nothing is written; otherwise exactly one task is added under the next id, at `NewTaskPosition`, with its derived status; the store stays consistent |
| TaskSerializers.InsertNewTask | tasks/serializers.py:66-70 | the accepted task is stored under the next id as `NewTaskRow` gives it, and the store stays consistent |
| TaskSerializers.CreatedStatusIsListName | tasks/serializers.py:56 | whatever status the client sent, a created task's status is its list's name, and its other fields are as sent |
| TaskSerializers.AppendedTaskKeepsDensity | tasks/serializers.py:66-69 | a task created without a position in a dense list of N lands at N + 1, no other task moves, and the list stays dense |
| TaskSerializers.CreateTaskKeepsConsistent | tasks/serializers.py:70 | creating a task in an existing list of an existing project keeps the store consistent |
| TaskSerializers.WithFields | tasks/serializers.py:80-83 | copying the supplied fields never touches the list, position or status |
| TaskSerializers.WithAllFields | tasks/serializers.py:86 | a plain update writes the supplied list and position as well as every other supplied field |
| TaskSerializers.UpdateTask | tasks/serializers.py:73-86 | a list outside the project is refused and nothing changes; otherwise the tasks become `Updated(old tasks, ...)`, the updated task is returned, and the store stays consistent |
| TaskSerializers.ApplyUpdate | tasks/serializers.py:74-86 | an accepted update moves the task when its list changes, then writes the other fields; the tasks become `Updated(old tasks, ...)` and the store stays consistent |
| TaskSerializers.UpdatedTaskFields | tasks/serializers.py:76-86 | the updated task has every supplied non-placement field and sits in the supplied list; a change of list takes the move's placement and the new list's name as status; otherwise the supplied position is stored as given |
| TaskSerializers.UpdateTouchesOthersOnlyByMove | tasks/serializers.py:76-86 | other tasks change only as the move changes them, and only in position; a same-list update touches no other task |
| TaskSerializers.SameListPositionCanCollide | tasks/serializers.py:86 | a same-list update with a neighbour's position leaves two tasks at that position |
| TaskSerializers.UpdateKeepsConsistent | tasks/serializers.py:73-86 | an update whose project and list exist keeps the store consistent and allocates no key |
| ProjectServices.Added | projects/services.py:15-22 | the pair has the requested role and every other membership is kept |
| ProjectServices.Removed | projects/services.py:37 | the pair's membership is gone and every other membership is kept |
| ProjectServices.AddProjectMember | projects/services.py:11-23 | the role defaults to member; a user outside the project's team is refused and nothing changes; otherwise the membership exists with the requested role and the store stays consistent |
| ProjectServices.RemovalCheck | projects/services.py:27-35 | refused as not a member exactly when there is no membership, as last manager exactly when the user is the project's only manager, and accepted otherwise |
| ProjectServices.RemoveProjectMember | projects/services.py:26-37 | a refused removal changes nothing; otherwise exactly that membership is deleted and the store stays consistent |
| ProjectServices.AddedManagers | projects/services.py:15-22 | adding with the manager role adds the user to the project's managers, any other role removes them, and other projects' managers are unchanged |
| ProjectServices.AddCanDemoteLastManager | projects/services.py:20-22 | re-adding a project's only manager as a member leaves it with no manager |
| ProjectServices.AddIsIdempotent | projects/services.py:20-22 | adding twice is adding once; re-adding with the role already held changes nothing |
| ProjectServices.RemoveThenAddRestores | projects/services.py:37 | removing a membership and adding it back with its role restores the table; removing after an add is removing |
| ProjectServices.RemovalKeepsAManager | projects/services.py:32-37 | an accepted removal takes the user out of the managers, lowers the count by one exactly when they were a manager, and never takes it from >= 1 to 0 |
| ProjectServices.AddKeepsConsistent | projects/services.py:15-19 | adding a member to an existing project keeps the store consistent |
| ProjectServices.RemoveKeepsConsistent | projects/services.py:37 | removing a membership keeps the store consistent |
| ProjectPermissions.ExtractProject | projects/permissions.py:8-16 | a project resolves to itself; otherwise a `project` attribute; otherwise the board's project; otherwise none |
| ProjectPermissions.IsProjectMember | projects/permissions.py:22-26 | granted exactly when a project resolves, the user is authenticated, and a membership exists for that pair |
| ProjectPermissions.IsProjectManager | projects/permissions.py:32-40 | granted exactly when a project resolves, the user is authenticated, and their membership has the manager role |
| ProjectPermissions.ManagerIsMember | projects/permissions.py:36-40 | manager permission implies member permission; a member without manager permission holds another role |
| ProjectPermissions.DeniedWithoutUserOrProject | projects/permissions.py:23-25 | an anonymous request, or an object with no project, is refused by both checks |
| ProjectPermissions.ProjectAttributeWins | projects/permissions.py:11-12 | a `project` attribute decides even when null and even when a board is present |
| ProjectPermissions.RowsResolveToTheirProject | projects/permissions.py:8-16 | on a task, a list and a board, the checks are membership in the task's project, the list's board's project and the board's project |
| Notifications.AfterSave | notifications/signals.py:9-15 | one assignment event, to the assignee, exactly when a task is created with an assignee; none otherwise |
| Notifications.BeforeSave | notifications/signals.py:18-47 | nothing for a new row, a zero key or a missing stored row; at most two events, all to the current assignee |
| Notifications.BeforeSaveEvents | notifications/signals.py:28-47 | an assignment event exactly when the new assignee is set and differs from the old; a due-soon event exactly when the task is assigned and its due date changes to within 24 hours; assignment first |
| Notifications.UnchangedSaveIsSilent | notifications/signals.py:28-40 | saving a task with its stored fields notifies nothing |
| Notifications.OnlyAssigneeAndDueDateMatter | notifications/signals.py:28-40 | a save that keeps the assignee and due date notifies nothing, whatever else changes |
| Notifications.UnassignedSaveIsSilent | notifications/signals.py:30-40 | a save leaving the task unassigned notifies nothing |
| Notifications.PastDueDateCountsAsSoon | notifications/signals.py:41-45 | an overdue due date newly set on an assigned task triggers a due-soon event |
| Settings.EnvStr | config/settings.py:28-29 | the variable's value when set, else the default |
| Settings.EnvBool | config/settings.py:31-35 | the default when unset; otherwise true exactly when the lower-cased value is "1", "true" or "yes" |
| Settings.EnvBoolSpellings | config/settings.py:35 | "TRUE" and "Yes" read as true; "on", "False" and "" read as false |
| Settings.Split | config/settings.py:41 | splitting gives at least one part and no part contains the separator |
| Settings.JoinSplit | config/settings.py:41 | joining the parts of a split with the separator gives back the string |
| Settings.SplitJoin | config/settings.py:41 | splitting a join of separator-free parts gives back the parts |
| Settings.Strip | config/settings.py:41 | the result is the slice of the input after its leading whitespace, has no whitespace at either end, and everything cut off is whitespace |
| Settings.StripKeepsStripped | config/settings.py:41 | stripping a string without edge whitespace leaves it unchanged |
| Settings.Cleaned | config/settings.py:41 | every item kept is non-empty and stripped |
| Settings.CleanedSingle | config/settings.py:41 | one part cleans to its stripped form, or to nothing when that is empty |
| Settings.CleanedAppend | config/settings.py:41 | cleaning works part by part, in order: the items of a concatenation are the items of each half; with `CleanedSingle` this fixes the result of every list of parts |
| Settings.CleanedKeepsCleanParts | config/settings.py:41 | parts that are already non-empty and stripped all survive cleaning unchanged |
| Settings.EnvList | config/settings.py:37-41 | the default when unset; otherwise every item is non-empty, stripped and comma-free |
| Settings.EnvListRoundTrip | config/settings.py:37-41 | non-empty, stripped, comma-free items written comma-joined read back as themselves |
| Settings.EnvListStripsItems | config/settings.py:37-41 | two such items written as "a, b", with a space after the comma, read back as the two items |
| Settings.StripLeadingSpace | config/settings.py:41 | one leading space before a stripped string is cut and nothing else |
| Settings.EnvInt | config/settings.py:46-53 | the default when unset or unparsable, else the parsed number |
| Settings.Read | config/settings.py:259-270 | DEBUG defaults to true, the secret key to the placeholder, the backend to SMTP, the sender to the host user or the no-reply address |
| Settings.Check | config/settings.py:272-317 | TLS together with SSL is refused first; then production SMTP with an empty user or password; then a placeholder secret key outside debug mode; a configuration passes exactly when none of the three fires |
| Settings.Load | config/settings.py:316-317 | the configuration loads exactly when it passes every check, and otherwise fails with the first check's error |
| Settings.EmptyEnvironmentLoads | config/settings.py:61-62 | an empty environment loads in debug mode with TLS on and SSL off |
| Settings.ProductionNeedsCredentials | config/settings.py:275-279 | setting only DEBUG=false is refused for missing SMTP credentials |
| Settings.LoadedConfigIsSafe | config/settings.py:272-317 | a loaded configuration never has TLS and SSL both on, has a real secret key in production, and has both credentials for production SMTP |

## Left out

- HTTP views and routing. Request parsing, status codes and serialization of responses are out of scope.
  The views' "order must be a non-empty list" guard is not carried into the reorder services. The services themselves accept an empty order for an empty container, and the model keeps that.
- Celery, e-mail delivery and templates. Notifications are modelled as the events the signal handlers enqueue, not delivered.
  The handlers are not wired into the store's saves. Neither is the board-creation signal that seeds default lists.
- Creating, renaming and deleting boards and projects, and deletes in general. Cascades are not modelled, and neither is the `IntegrityError` a duplicate board name raises on create (`InsertBoard` requires a free name).
- Subtasks, comments, users and teams beyond the (team, user) membership pairs.
- Concurrency. Services run one at a time, with no interleaving, and the unguarded `max + 1` race between concurrent creates is not modelled.
- Database ids. Keys come from per-table counters starting at 1. The database's own id allocation and gaps from rolled-back inserts are not modelled.
- Timestamps. `created_at` and `updated_at` are not modelled, and the wall clock is an integer-second parameter.
- Settings: only the fallback reader used when `django-environ` is absent is modelled.
  Reading the `.env` file and the test-run override of the Celery flags are not modelled. Settings the checks do not read are omitted from `Config`.
- Settings.EnvInt: Python's `int()` grammar is a function parameter. Signs, underscores and surrounding whitespace are not modelled.
- Settings.Lower: lower-cases ASCII letters only, where `str.lower` handles all of Unicode.
- Settings.Strip: removes the ASCII whitespace `str.strip` removes, the separators U+001C to U+001F included. Non-ASCII whitespace such as U+0085 and U+00A0 is not removed.
- Settings.EnvStr: a missing key with no default yields `None`. The settings module always passes a default.
- ProjectPermissions.ExtractProject: a related object that raises on access, which `hasattr` reports as absent, is not distinguished from an absent attribute.
- TaskSerializers.NewTaskPosition, BoardSerializers.NewListPosition: positions are unbounded `nat`s. The `PositiveIntegerField` columns (tasks/models.py:25, boards/models.py:27) are bounded above by the database backend, 2147483647 on PostgreSQL and 2^63 - 1 on SQLite, and the backend is chosen by configuration. An append at `max + 1` past that bound fails with a database range error; the model always succeeds.
- TaskSerializers.CreateTask, BoardSerializers.CreateList: a client position above the column's upper bound is refused by the serializer's `max_value` validation; the model accepts every non-negative position.
- TaskSerializers.UpdateTask: a client position above the column's upper bound is refused by the same validation; the model accepts every non-negative position.
- TaskServices.MoveTaskToList: the move's `max_pos + 1` and its `F("position") + 1` shift can exceed the column's upper bound, which raises a database range error and rolls the move back. The model refuses only negative positions (`NegativePosition`), and `ShiftTarget` and `Moved` never overflow.
- TaskSerializers.UpdateTask: a list, project or position the client sends is taken as already resolved by the field validators. The primary-key lookups and their errors are not modelled.
