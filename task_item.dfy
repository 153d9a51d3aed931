/**
 * The pure parts of one task card: which status button it offers and what
 * that button sends, whether the task is overdue, and the badge labels.
 */
module TaskItemView {
  import opened Wrappers
  import opened Ascii
  import opened TaskSchema
  import opened TaskRoutes

  /** The "Start" / "Complete" button, shown while the task is not completed. */
  function Advance(s: Status): (r: Option<Status>)
    ensures r.Some? <==> s != Completed
    ensures r.Some? ==> r.value != s && r.value != Todo
  {
    match s
    case Todo => Some(InProgress)
    case InProgress => Some(Completed)
    case Completed => None
  }

  /** The "Reopen" button, shown only on a completed task. */
  function Reopen(s: Status): (r: Option<Status>)
    ensures r.Some? <==> s == Completed
    ensures r.Some? ==> r.value == Todo
  {
    if s == Completed then Some(Todo) else None
  }

  /** Every card shows exactly one of the two buttons. */
  lemma ExactlyOneStatusButton(s: Status)
    ensures Advance(s).Some? != Reopen(s).Some?
  {
  }

  /** The status the card's one status button moves the task to. */
  function NextStatus(s: Status): Status {
    match Advance(s)
    case Some(next) => next
    case None => Reopen(s).value
  }

  /** Pressing the button three times brings any task back to where it was, never sooner. */
  lemma StatusCycle(s: Status)
    ensures NextStatus(s) != s && NextStatus(NextStatus(s)) != s
    ensures NextStatus(NextStatus(NextStatus(s))) == s
  {
  }

  /** The text on the status button, with the in-flight variants. */
  function ButtonLabel(s: Status, updating: bool): string {
    match s
    case Todo => if updating then "Updating..." else "Start"
    case InProgress => if updating then "Completing..." else "Complete"
    case Completed => if updating then "Reopening..." else "Reopen"
  }

  /** The body of `handleStatusChange(newStatus)`: `{ status: newStatus }` and nothing else. */
  function StatusChange(s: Status): (p: Patch)
    ensures p.status == Some(StatusName(s))
    ensures p.(status := None) == EmptyPatch
  {
    EmptyPatch.(status := Some(StatusName(s)))
  }

  /**
   * On the server, a status change alters the status and, when it really
   * changes, `updatedAt`; title, description, priority, due date, tags and
   * owner stay as they were.
   */
  lemma StatusChangeTouchesOnlyStatus(t: Task, s: Status, now: int)
    requires WellFormed(t)
    ensures Assign(t, StatusChange(s), now)
         == Some(t.(status := s, updatedAt := if s == t.status then t.updatedAt else now))
  {
    assert ParseStatus(StatusName(s)) == Some(s);
  }

  /** `isOverdue`: a due date strictly before now, on a task not completed. */
  predicate IsOverdue(t: Task, now: int) {
    t.dueDate.Some? && t.dueDate.value < now && t.status != Completed
  }

  /** A completed task is never overdue; until completed, an overdue task stays overdue. */
  lemma OverdueRules(t: Task, now: int, later: int)
    ensures t.status == Completed ==> !IsOverdue(t, now)
    ensures t.dueDate.None? ==> !IsOverdue(t, now)
    ensures IsOverdue(t, now) && now <= later ==> IsOverdue(t, later)
  {
  }

  /** The status badge: "In Progress", otherwise the stored name capitalised. */
  function StatusLabel(s: Status): (r: string)
    ensures s == Todo ==> r == "Todo"
    ensures s == InProgress ==> r == "In Progress"
    ensures s == Completed ==> r == "Completed"
  {
    if s == InProgress then "In Progress" else Capitalize(StatusName(s))
  }

  /** The priority badge: the stored name capitalised. */
  function PriorityLabel(p: Priority): (r: string)
    ensures p == Low ==> r == "Low"
    ensures p == Medium ==> r == "Medium"
    ensures p == High ==> r == "High"
  {
    Capitalize(PriorityName(p))
  }
}
