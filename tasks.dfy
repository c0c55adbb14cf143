/**
 * The planner's records: tasks and the rich-text notes attached to them.
 * A due date is a local calendar day number; the moment "now" is a day
 * number with the milliseconds elapsed since local midnight.
 */
module Tasks {
  import opened Wrappers

  type TaskId = string
  type NoteId = string
  type Day = int

  datatype Priority = Low | Medium | High

  /** The string the script stores for a priority. */
  function PriorityName(p: Priority): (r: string)
    ensures r in {"low", "medium", "high"}
  {
    match p
    case Low => "low"
    case Medium => "medium"
    case High => "high"
  }

  lemma PriorityNameInjective(p: Priority, q: Priority)
    ensures PriorityName(p) == PriorityName(q) <==> p == q
  {
  }

  datatype Task = Task(
    id: TaskId,
    title: string,
    topic: string,
    priority: Priority,
    due: Option<Day>,
    category: string,
    completed: bool,
    created: int)

  datatype Note = Note(id: NoteId, html: string, created: int)

  /**
   * The fields a caller hands to task creation. JavaScript's falsy values
   * (missing, null, the empty string) are the empty string here, and `None`
   * for the priority and the due date.
   */
  datatype TaskFields = TaskFields(
    title: string,
    topic: string,
    priority: Option<Priority>,
    due: Option<Day>,
    category: string)

  /** `value || fallback` on strings. */
  function OrDefault(value: string, fallback: string): (r: string)
    ensures value != "" ==> r == value
    ensures value == "" ==> r == fallback
  {
    if value == "" then fallback else value
  }

  /** The record built by task creation with identity `id` at time `now`. */
  function NewTask(id: TaskId, fields: TaskFields, now: int): (t: Task)
    ensures t.id == id && t.created == now && !t.completed
    ensures t.title != "" && t.category != ""
    ensures fields.title != "" ==> t.title == fields.title
    ensures fields.title == "" ==> t.title == "Untitled"
    ensures t.topic == fields.topic
    ensures fields.priority.None? ==> t.priority == Medium
    ensures fields.priority.Some? ==> t.priority == fields.priority.value
    ensures t.due == fields.due
    ensures fields.category != "" ==> t.category == fields.category
    ensures fields.category == "" ==> t.category == "general"
  {
    Task(id, OrDefault(fields.title, "Untitled"), fields.topic, fields.priority.GetOr(Medium),
         fields.due, OrDefault(fields.category, "general"), false, now)
  }

  /**
   * A partial task passed to `Object.assign`: each `Some` field overwrites
   * the task's field. A due date can be set to a day or cleared (`Some(None)`).
   */
  datatype TaskChanges = TaskChanges(
    title: Option<string>,
    topic: Option<string>,
    priority: Option<Priority>,
    due: Option<Option<Day>>,
    category: Option<string>,
    completed: Option<bool>)

  const NoChanges := TaskChanges(None, None, None, None, None, None)

  function ApplyChanges(t: Task, c: TaskChanges): (u: Task)
    ensures u.id == t.id && u.created == t.created
    ensures c.title.Some? ==> u.title == c.title.value
    ensures c.title.None? ==> u.title == t.title
    ensures c.topic.Some? ==> u.topic == c.topic.value
    ensures c.topic.None? ==> u.topic == t.topic
    ensures c.priority.Some? ==> u.priority == c.priority.value
    ensures c.priority.None? ==> u.priority == t.priority
    ensures c.due.Some? ==> u.due == c.due.value
    ensures c.due.None? ==> u.due == t.due
    ensures c.category.Some? ==> u.category == c.category.value
    ensures c.category.None? ==> u.category == t.category
    ensures c.completed.Some? ==> u.completed == c.completed.value
    ensures c.completed.None? ==> u.completed == t.completed
  {
    t.(title := c.title.GetOr(t.title),
       topic := c.topic.GetOr(t.topic),
       priority := c.priority.GetOr(t.priority),
       due := c.due.GetOr(t.due),
       category := c.category.GetOr(t.category),
       completed := c.completed.GetOr(t.completed))
  }

  /** Merging the same changes twice is merging them once; merging nothing changes nothing. */
  lemma ApplyChangesIdempotent(t: Task, c: TaskChanges)
    ensures ApplyChanges(ApplyChanges(t, c), c) == ApplyChanges(t, c)
    ensures ApplyChanges(t, NoChanges) == t
  {
  }
}
