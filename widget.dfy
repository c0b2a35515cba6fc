/** The widget object: its held state, the notification handler that updates
    it, and the rendering methods with the loops that build the table. */
module Widget {
  import opened Types
  import opened Flatten
  import opened Sections
  import opened Rows
  import opened Table

  /** The USERS guard `this.tasks && this.tasks.length > 0` as written, read
      with JavaScript semantics: the start-up array has length 0, and a
      snapshot is a plain object keyed by list name, whose `length` is
      undefined, so that `undefined > 0` is false. */
  function HeldLength(held: Held): Option<nat> {
    match held
    case StartArray => Some(0)
    case Received(_) => None
  }

  predicate UsersGuardAsWritten(held: Held) {
    HeldLength(held).Some? && HeldLength(held).value > 0
  }

  /** As written, a USERS notification never schedules an update, whatever
      `this.tasks` holds. */
  lemma UsersGuardAsWrittenNeverHolds(held: Held)
    ensures !UsersGuardAsWritten(held)
  {
  }

  /** The guard the handler evidently means: some held list holds a task. */
  predicate UsersGuard(held: Held) {
    exists name :: name in Entries(held) && Entries(held)[name] != []
  }

  /** The intended guard holds exactly when some choice of configured lists
      would show a task, so it skips an update only when no render could
      show anything. */
  lemma UsersGuardMeansTasksShown(held: Held)
    ensures UsersGuard(held) <==> exists names :: Concat(Entries(held), names) != []
  {
    var snapshot := Entries(held);
    if UsersGuard(held) {
      var name :| name in snapshot && snapshot[name] != [];
      assert [name][..0] == [];
      assert Concat(snapshot, [name]) == snapshot[name];
    }
    if exists names :: Concat(snapshot, names) != [] {
      var names :| Concat(snapshot, names) != [];
      var t := Concat(snapshot, names)[0];
      ConcatMembers(snapshot, names, t);
      var i :| 0 <= i < |names| && names[i] in snapshot && t in snapshot[names[i]];
      assert snapshot[names[i]] != [];
    }
  }

  /** An update the intended guard skips would have drawn no task, whatever
      the configuration. */
  lemma SkippedUpdateHidesNothing(held: Held, config: Config)
    requires !UsersGuard(held)
    ensures Todos(Entries(held), config) == []
  {
    UsersGuardMeansTasksShown(held);
    assert Concat(Entries(held), config.lists) == [];
  }

  class Widget {
    const config: Config
    var tasks: Held
    var users: Option<Users>
    var started: bool
    /** Every notification sent and update scheduled so far, oldest first. */
    var effects: seq<Effect>

    /** The widget only marks itself started when it asks for the directory,
        and it has by then registered its lists and asked for the users. */
    ghost predicate Valid()
      reads this
    {
      started ==> config.showAssignee && AddLists(config.lists) in effects && GetUsers in effects
    }

    /** The state `start` leaves: the empty task array, no directory. */
    constructor (config: Config)
      ensures Valid()
      ensures this.config == config
      ensures tasks == StartArray && users == None && !started && effects == []
    {
      this.config := config;
      tasks := StartArray;
      users := None;
      started := false;
      effects := [];
    }

    method SocketNotificationReceived(notification: Notification)
      requires Valid()
      modifies this
      ensures Valid()
      ensures notification.TasksArrived? ==>
                tasks == Received(notification.tasks) && users == old(users) && started == old(started)
                && effects == old(effects) + [UpdateDom(UpdateSpeed)]
      ensures notification.Started? ==>
                tasks == old(tasks) && users == old(users)
                && started == (old(started) || config.showAssignee)
                && effects == old(effects) + [AddLists(config.lists)] + (if config.showAssignee then [GetUsers] else [])
      ensures notification.UsersArrived? ==>
                tasks == old(tasks) && users == Some(notification.users) && started == old(started)
                && effects == old(effects) + (if UsersGuardAsWritten(old(tasks)) then [UpdateDom(UpdateSpeed)] else [])
      ensures notification.Unknown? ==>
                tasks == old(tasks) && users == old(users) && started == old(started) && effects == old(effects)
    {
      match notification
      case TasksArrived(payload) =>
        tasks := Received(payload);
        effects := effects + [UpdateDom(UpdateSpeed)];
      case Started =>
        effects := effects + [AddLists(config.lists)];
        if config.showAssignee {
          started := true;
          effects := effects + [GetUsers];
        }
      case UsersArrived(payload) =>
        users := Some(payload);
        effects := effects + (if UsersGuardAsWritten(tasks) then [UpdateDom(UpdateSpeed)] else []);
      case Unknown(_) =>
    }

    /** The USERS branch with the intended guard: replace the directory and
        schedule an update exactly when some held list holds a task. */
    method ReceiveUsersIntended(payload: Users)
      requires Valid()
      modifies this
      ensures Valid()
      ensures tasks == old(tasks) && users == Some(payload) && started == old(started)
      ensures effects == old(effects) + [UpdateDom(UpdateSpeed)] <==> exists name :: name in Entries(tasks) && Entries(tasks)[name] != []
      ensures effects == old(effects) || effects == old(effects) + [UpdateDom(UpdateSpeed)]
    {
      users := Some(payload);
      if UsersGuard(tasks) {
        effects := effects + [UpdateDom(UpdateSpeed)];
      }
    }

    /** The flat task list: configured lists in order, each task appended in
        "reversed" mode and put in front otherwise. */
    method GetTodos() returns (todos: seq<Task>)
      ensures todos == Todos(Entries(tasks), config)
    {
      var snapshot := Entries(tasks);
      var names := config.lists;
      var append := config.order == "reversed";
      todos := [];
      for i := 0 to |names|
        invariant todos == Arrange(Concat(snapshot, names[..i]), append)
      {
        ghost var done := Concat(snapshot, names[..i]);
        ConcatSnoc(snapshot, names, i);
        var name := names[i];
        if name in snapshot && |snapshot[name]| > 0 {
          var list := snapshot[name];
          assert done + list[..0] == done;
          for j := 0 to |list|
            invariant todos == Arrange(done + list[..j], append)
          {
            assert done + list[..j + 1] == (done + list[..j]) + [list[j]];
            ArrangeSnoc(done + list[..j], list[j], append);
            if append {
              todos := todos + [list[j]];
            } else {
              todos := [list[j]] + todos;
            }
          }
          assert list[..|list|] == list;
        } else {
          assert done + Present(snapshot, name) == done;
        }
      }
      assert names[..|names|] == names;
    }

    /** The grouping loop of getDom: the section keys in order of first
        appearance, and for each the rows of its tasks in flat-list order. */
    method Group(todos: seq<Task>) returns (titleRows: seq<string>, rows: seq<seq<Line>>)
      ensures titleRows == Keys(todos)
      ensures rows == Groups(todos, titleRows, config, users)
    {
      titleRows := [];
      rows := [];
      for i := 0 to |todos|
        invariant titleRows == Keys(todos[..i])
        invariant rows == Groups(todos[..i], titleRows, config, users)
      {
        var todo := todos[i];
        ghost var done := todos[..i];
        assert todos[..i + 1] == done + [todo];
        assert todos[..i + 1][..i] == done;
        if todo.listFrom !in titleRows {
          GroupsNewKey(done, titleRows, todo.listFrom, config, users);
          titleRows := titleRows + [todo.listFrom];
        }
        var k := FindIndex(titleRows, todo.listFrom);
        if k == |rows| {
          rows := rows + [[]];
        }
        GroupsSnoc(done, todo, titleRows, k, config, users);
        rows := rows[k := rows[k] + [RowOf(todo, config, users)]];
      }
      assert todos[..|todos|] == todos;
    }

    /** generateRows: each section's header, then its rows while the counter
        is below `maximumEntries`; the counter runs over every row. */
    method GenerateRows(titleRows: seq<string>, rows: seq<seq<Line>>) returns (results: seq<Line>)
      requires |rows| == |titleRows|
      ensures results == Layout(titleRows, rows, config.maximumEntries)
    {
      var max := config.maximumEntries;
      results := [];
      for k := 0 to |titleRows|
        invariant results == Layout(titleRows[..k], rows[..k], max)
      {
        assert titleRows[..k + 1][..k] == titleRows[..k];
        assert rows[..k + 1][..k] == rows[..k];
        results := results + [Header(titleRows[k])];
        ghost var front := results;
        var section := rows[k];
        var count := 0;
        for j := 0 to |section|
          invariant count == j
          invariant results == front + Take(section[..j], max)
        {
          TakeStep(section, j, max);
          if count < max {
            results := results + [section[j]];
          }
          count := count + 1;
        }
        assert section[..|section|] == section;
      }
      assert titleRows[..|titleRows|] == titleRows;
      assert rows[..|rows|] == rows;
    }

    /** One render: ask for the directory when assignees are shown, then draw
        the table of the current tasks. */
    method GetDom() returns (table: seq<Line>)
      requires Valid()
      modifies this`effects
      ensures Valid()
      ensures effects == old(effects) + (if config.showAssignee then [GetUsers] else [])
      ensures table == Render(Todos(Entries(tasks), config), config, users)
    {
      if config.showAssignee {
        effects := effects + [GetUsers];
      }
      var todos := GetTodos();
      var titleRows, rows := Group(todos);
      table := GenerateRows(titleRows, rows);
    }
  }

  /** The handler as written: a directory arriving before any snapshot and
      one arriving after a snapshot with a task both leave the log at the one
      update the snapshot scheduled. */
  method UsersAfterTasksAsWritten(t: Task) returns (effects: seq<Effect>)
    ensures effects == [UpdateDom(UpdateSpeed)]
  {
    var w := new Widget(Defaults);
    w.SocketNotificationReceived(UsersArrived(map[]));
    w.SocketNotificationReceived(TasksArrived(map["inbox" := [t]]));
    w.SocketNotificationReceived(UsersArrived(map[]));
    effects := w.effects;
  }

  /** The intended USERS branch: nothing before any snapshot, an update after
      a snapshot with a task, and the render that follows shows that list. */
  method UsersAfterTasksIntended(t: Task) returns (effects: seq<Effect>, headers: seq<string>)
    requires t.listFrom == "inbox"
    ensures effects == [UpdateDom(UpdateSpeed), UpdateDom(UpdateSpeed)]
    ensures headers == ["inbox"]
  {
    var w := new Widget(Defaults);
    w.ReceiveUsersIntended(map[]);
    w.SocketNotificationReceived(TasksArrived(map["inbox" := [t]]));
    assert "inbox" in Entries(w.tasks) && Entries(w.tasks)["inbox"] != [];
    w.ReceiveUsersIntended(map[]);
    effects := w.effects;
    var table := w.GetDom();
    OneTaskTable(t, w.users);
    headers := HeaderNames(table);
  }

  /** A snapshot holding one task of the default "inbox" list renders under
      one "inbox" header. */
  lemma OneTaskTable(t: Task, users: Option<Users>)
    requires t.listFrom == "inbox"
    ensures HeaderNames(Render(Todos(map["inbox" := [t]], Defaults), Defaults, users)) == ["inbox"]
  {
    assert Concat(map["inbox" := [t]], ["inbox"]) == [t];
    assert Todos(map["inbox" := [t]], Defaults) == [t];
    RenderShape([t], Defaults, users);
    assert [t][..0] == [];
  }
}
