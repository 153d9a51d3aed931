/**
 * The Task document: its fields, the two enumerations, the defaults applied
 * when a task is constructed and the validation run when it is saved.
 * Timestamps are integers; ids are natural numbers handed out by the store.
 */
module TaskSchema {
  import opened Wrappers

  type TaskId = nat
  type UserId = nat

  datatype Status = Todo | InProgress | Completed
  datatype Priority = Low | Medium | High

  /** The stored spelling of a status. */
  function StatusName(s: Status): string {
    match s
    case Todo => "todo"
    case InProgress => "in-progress"
    case Completed => "completed"
  }

  /** The stored spelling of a priority. */
  function PriorityName(p: Priority): string {
    match p
    case Low => "low"
    case Medium => "medium"
    case High => "high"
  }

  /** The enum check on `status`: only the three stored spellings are accepted. */
  function ParseStatus(name: string): (r: Option<Status>)
    ensures r.Some? <==> name == "todo" || name == "in-progress" || name == "completed"
    ensures r.Some? ==> StatusName(r.value) == name
  {
    if name == "todo" then Some(Todo)
    else if name == "in-progress" then Some(InProgress)
    else if name == "completed" then Some(Completed)
    else None
  }

  /** The enum check on `priority`: only the three stored spellings are accepted. */
  function ParsePriority(name: string): (r: Option<Priority>)
    ensures r.Some? <==> name == "low" || name == "medium" || name == "high"
    ensures r.Some? ==> PriorityName(r.value) == name
  {
    if name == "low" then Some(Low)
    else if name == "medium" then Some(Medium)
    else if name == "high" then Some(High)
    else None
  }

  const DefaultDescription: string := ""
  const DefaultStatus: Status := Todo
  const DefaultPriority: Priority := Medium

  /** A stored task. `dueDate` is `None` for the schema's `null` default. */
  datatype Task = Task(
    id: TaskId,
    title: string,
    description: string,
    status: Status,
    priority: Priority,
    userId: UserId,
    dueDate: Option<int>,
    tags: seq<string>,
    createdAt: int,
    updatedAt: int)

  /** The `required: true` validator on `title`: a string of length at least one. */
  predicate WellFormed(t: Task) {
    t.title != ""
  }

  /** What is handed to `new Task({...})`; an absent field is `None`. */
  datatype Fields = Fields(
    title: string,
    description: Option<string>,
    priority: Option<string>,
    dueDate: Option<int>,
    tags: seq<string>,
    userId: UserId)

  /**
   * `new Task(fields)` followed by the validation of `save()`: defaults fill
   * the absent fields, `status` always starts at its default, both timestamps
   * are the save time, and a task failing the title or priority validator is
   * not produced.
   */
  function Construct(id: TaskId, f: Fields, now: int): (r: Option<Task>)
    ensures r.Some? <==> f.title != "" && (f.priority.Some? ==> ParsePriority(f.priority.value).Some?)
    ensures r.Some? ==> WellFormed(r.value)
    ensures r.Some? ==> r.value.id == id && r.value.userId == f.userId && r.value.title == f.title
    ensures r.Some? ==> r.value.status == DefaultStatus
    ensures r.Some? ==> r.value.description == (if f.description.Some? then f.description.value else DefaultDescription)
    ensures r.Some? ==> PriorityName(r.value.priority) == (if f.priority.Some? then f.priority.value else "medium")
    ensures r.Some? ==> r.value.dueDate == f.dueDate && r.value.tags == f.tags
    ensures r.Some? ==> r.value.createdAt == now && r.value.updatedAt == now
  {
    var priority := if f.priority.Some? then ParsePriority(f.priority.value) else Some(DefaultPriority);
    if f.title == "" || priority.None? then None
    else
      Some(Task(id, f.title, f.description.GetOr(DefaultDescription), DefaultStatus, priority.value,
                f.userId, f.dueDate, f.tags, now, now))
  }
}
