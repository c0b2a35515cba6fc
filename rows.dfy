/** Which cells a task row shows. */
module Rows {
  import opened Types

  /** The row drawn for task `t`: the star glyph for a starred task and the
      bullet otherwise, the title, the assignee's directory entry when
      assignees are shown, the task has an assignee and a directory has
      arrived, and the due date when deadlines are shown and one is set. */
  function RowOf(t: Task, config: Config, users: Option<Users>): (r: Line)
    ensures r.Row? && r.title == t.title
    ensures r.glyph == Star <==> t.starred
    ensures r.assignee != NoAssignee <==> config.showAssignee && HasAssignee(t) && users.Some?
    ensures r.assignee != NoAssignee ==>
              r.assignee.name == if t.assigneeId.value in users.value then Some(users.value[t.assigneeId.value]) else None
    ensures r.deadline != "" ==> config.showDeadline && HasDueDate(t) && r.deadline == t.dueDate.value
    ensures config.showDeadline && HasDueDate(t) ==> r.deadline == t.dueDate.value
  {
    var glyph := if t.starred then Star else Bullet;
    var assignee :=
      if config.showAssignee && HasAssignee(t) && users.Some?
      then Assignee(if t.assigneeId.value in users.value then Some(users.value[t.assigneeId.value]) else None)
      else NoAssignee;
    var deadline := if config.showDeadline && HasDueDate(t) then t.dueDate.value else "";
    Row(glyph, t.title, assignee, deadline)
  }

  /** The rows of a sequence of tasks, one per task, in the same order. */
  function RowsOf(todos: seq<Task>, config: Config, users: Option<Users>): (r: seq<Line>)
    ensures |r| == |todos|
  {
    seq(|todos|, i requires 0 <= i < |todos| => RowOf(todos[i], config, users))
  }

  /** Adding a task adds its row at the end. */
  lemma RowsOfSnoc(todos: seq<Task>, t: Task, config: Config, users: Option<Users>)
    ensures RowsOf(todos + [t], config, users) == RowsOf(todos, config, users) + [RowOf(t, config, users)]
  {
    var lhs := RowsOf(todos + [t], config, users);
    var rhs := RowsOf(todos, config, users) + [RowOf(t, config, users)];
    assert forall i :: 0 <= i < |lhs| ==> lhs[i] == rhs[i];
  }
}
