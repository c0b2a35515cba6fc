/** Data model of the MagicMirror to-do widget: the tasks it receives, its
    configuration, the abstract table lines it renders and the notifications
    it exchanges with its backend helper. */
module Types {

  datatype Option<+T> = None | Some(value: T)

  /** A to-do item as the backend delivers it. `listFrom` names the list the
      task is grouped under when the table is drawn; it is part of the input. */
  datatype Task = Task(
    title: string,
    starred: bool,
    dueDate: Option<string>,
    assigneeId: Option<int>,
    listFrom: string)

  /** JavaScript truthiness of `todo.due_date`: present and not the empty string. */
  predicate HasDueDate(t: Task) {
    t.dueDate.Some? && t.dueDate.value != ""
  }

  /** JavaScript truthiness of `todo.assignee_id`: present and not the number 0. */
  predicate HasAssignee(t: Task) {
    t.assigneeId.Some? && t.assigneeId.value != 0
  }

  /** The options the core reads. `order` is compared with "reversed" only. */
  datatype Config = Config(
    maximumEntries: int,
    order: string,
    lists: seq<string>,
    showDeadline: bool,
    showAssignee: bool)

  /** The widget's defaults for the options above. */
  const Defaults: Config := Config(10, "normal", ["inbox"], true, true)

  predicate AppendMode(config: Config) {
    config.order == "reversed"
  }

  /** A task snapshot: list name to the tasks of that list. */
  type Snapshot = map<string, seq<Task>>

  /** The user directory: assignee id to display name. */
  type Users = map<int, string>

  /** What `this.tasks` holds: the empty array stored at start-up, or the
      last snapshot the backend sent (a plain object keyed by list name). */
  datatype Held = StartArray | Received(snapshot: Snapshot)

  /** The lists `this.tasks[name]` can find: none in the start-up array. */
  function Entries(held: Held): Snapshot {
    match held
    case StartArray => map[]
    case Received(snapshot) => snapshot
  }

  datatype Glyph = Star | Bullet

  /** The assignee cell: empty, or the directory entry for the task's
      assignee (None when the directory has no such id). */
  datatype AssigneeCell = NoAssignee | Assignee(name: Option<string>)

  /** One line of the rendered table: a section header or a task row of four cells. */
  datatype Line =
    | Header(name: string)
    | Row(glyph: Glyph, title: string, assignee: AssigneeCell, deadline: string)

  /** Notifications the backend sends to the widget. */
  datatype Notification =
    | TasksArrived(tasks: Snapshot)
    | Started
    | UsersArrived(users: Users)
    | Unknown(name: string)

  /** Outbound effects: socket notifications sent and DOM updates scheduled. */
  datatype Effect =
    | AddLists(lists: seq<string>)
    | GetUsers
    | UpdateDom(speed: nat)

  /** The animation speed every scheduled update uses. */
  const UpdateSpeed: nat := 3000
}
