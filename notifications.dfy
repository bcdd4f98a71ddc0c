/**
 * The notifications a task save schedules. After a task is created with an
 * assignee, that user is told of the assignment. Before an existing task is
 * saved, the stored row is compared with the new one: a new or different
 * assignee is told of the assignment, and an assigned task whose due date is
 * set or changed to one at most 24 hours ahead (or already past) tells its
 * assignee it is due soon. The events are what the handlers enqueue; delivery
 * happens elsewhere.
 */
module Notifications {
  import opened Common
  import opened TaskModels

  /** Seconds in the due-soon window. */
  const DUE_SOON_WINDOW: int := 24 * 60 * 60

  datatype Event =
    | Assigned(user: UserId, task: Option<TaskId>, title: string)
    | DueSoon(user: UserId, title: string, due: int)

  /** The `post_save` handler: a task created with an assignee notifies that user. */
  function AfterSave(id: TaskId, t: Task, created: bool): (events: seq<Event>)
    ensures |events| <= 1
    ensures events != [] <==> created && t.assignee.Some?
    ensures events != [] ==> events[0] == Assigned(t.assignee.value, Some(id), t.title)
  {
    if created && t.assignee.Some? then [Assigned(t.assignee.value, Some(id), t.title)] else []
  }

  /** True when saving `t` over `stored` hands the task to a user who did not hold it. */
  predicate AssigneeChanged(stored: Task, t: Task) {
    t.assignee.Some? && stored.assignee != t.assignee
  }

  /** True when saving `t` over `stored` sets the due date of an assigned task to one within the window. */
  predicate DueDateNowSoon(stored: Task, t: Task, now: int) {
    t.assignee.Some? && t.dueDate.Some? && t.dueDate != stored.dueDate && t.dueDate.value - now <= DUE_SOON_WINDOW
  }

  /**
   * The `pre_save` handler. `pk` is the key being saved (None for a new row,
   * and 0 counts as none), `stored` the row currently stored under it, `now`
   * the clock in seconds. New rows and keys with no stored row notify
   * nothing; otherwise an assignment event comes first and a due-soon event
   * second.
   */
  function BeforeSave(pk: Option<TaskId>, stored: Option<Task>, t: Task, now: int): (events: seq<Event>)
    ensures pk.None? || pk == Some(0) || stored.None? ==> events == []
    ensures |events| <= 2
    ensures forall e :: e in events ==> t.assignee == Some(e.user)
  {
    if pk.None? || pk.value == 0 || stored.None? then []
    else
      var assignment := if AssigneeChanged(stored.value, t) then [Assigned(t.assignee.value, pk, t.title)] else [];
      var dueSoon := if DueDateNowSoon(stored.value, t, now) then [DueSoon(t.assignee.value, t.title, t.dueDate.value)] else [];
      assignment + dueSoon
  }

  /**
   * For a save over an existing row: an assignment event is sent exactly when
   * the assignee is new or different, a due-soon event exactly when the due
   * date of an assigned task changes to one within the window, and the
   * assignment event comes first.
   */
  lemma BeforeSaveEvents(id: TaskId, stored: Task, t: Task, now: int)
    requires id != 0
    ensures var events := BeforeSave(Some(id), Some(stored), t, now);
      && |events| == (if AssigneeChanged(stored, t) then 1 else 0) + (if DueDateNowSoon(stored, t, now) then 1 else 0)
      && (|events| > 0 && events[0].Assigned? <==> AssigneeChanged(stored, t))
      && (AssigneeChanged(stored, t) ==> events[0] == Assigned(t.assignee.value, Some(id), t.title))
      && (|events| > 0 && events[|events| - 1].DueSoon? <==> DueDateNowSoon(stored, t, now))
      && (DueDateNowSoon(stored, t, now) ==> events[|events| - 1] == DueSoon(t.assignee.value, t.title, t.dueDate.value))
  {
  }

  /** Saving a task with the fields it already has notifies nothing. */
  lemma UnchangedSaveIsSilent(id: TaskId, t: Task, now: int)
    ensures BeforeSave(Some(id), Some(t), t, now) == []
  {
  }

  /**
   * Saving that changes neither the assignee nor the due date notifies
   * nothing, whatever else changes: moving a task, reordering it and its
   * derived status are silent.
   */
  lemma OnlyAssigneeAndDueDateMatter(id: TaskId, stored: Task, t: Task, now: int)
    requires t.assignee == stored.assignee && t.dueDate == stored.dueDate
    ensures BeforeSave(Some(id), Some(stored), t, now) == []
  {
  }

  /** Unassigning a task, or saving one with no assignee, notifies nothing. */
  lemma UnassignedSaveIsSilent(pk: Option<TaskId>, stored: Option<Task>, t: Task, now: int)
    requires t.assignee.None?
    ensures BeforeSave(pk, stored, t, now) == []
  {
  }

  /**
   * The window has no lower bound: setting an assigned task's due date to a
   * moment already past sends a due-soon event.
   */
  lemma PastDueDateCountsAsSoon(id: TaskId, stored: Task, t: Task, now: int)
    requires id != 0 && t.assignee.Some? && t.dueDate.Some? && t.dueDate != stored.dueDate && t.dueDate.value < now
    ensures DueSoon(t.assignee.value, t.title, t.dueDate.value) in BeforeSave(Some(id), Some(stored), t, now)
  {
    BeforeSaveEvents(id, stored, t, now);
  }
}
