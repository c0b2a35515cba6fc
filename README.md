# MMM-Wunderlist-Enhanced, modelled in Dafny

A model of the logic core of the MagicMirror module `MMM-Wunderlist-Enhanced`.
This widget shows to-do lists from Wunderlist in a table. The model covers four parts:

- **Flattening** (`getTodos`). The widget walks the configured list names in order. It looks each name up in the held task snapshot and skips names with no tasks. It appends every task (`order` is `"reversed"`) or puts it in front (any other `order`).
- **Grouping** (`getDom`). The flat list is split into sections by each task's `listFrom`. Section keys come in order of first appearance. Each section keeps its tasks in flat-list order.
- **Row cells and truncation** (`getDom` and its `generateRows` closure). Each task row shows a star or bullet glyph, its title, an assignee cell and a deadline cell. Each section is drawn as one header followed by at most `maximumEntries` of its rows.
- **The notification handler** (`socketNotificationReceived`). It handles `TASKS`, `STARTED` and `USERS` and updates the widget's `tasks`, `users` and `started` fields. Its outbound effects are kept in an effect log: notifications sent and DOM updates scheduled.

Layout:

- `types.dfy` (`Types`): tasks, configuration, held state, table lines, notifications and effects.
- `flatten.dfy` (`Flatten`): the specification of the flat list (`Concat`, `Reverse`, `Todos`) and its lemmas.
- `sections.dfy` (`Sections`): section keys (`Keys`), section contents (`Filter`), `findIndex`, and the grouping lemmas.
- `rows.dfy` (`Rows`): the cells of one task row.
- `table.dfy` (`Table`): truncation and layout of the table (`Take`, `Layout`, `Render`) and its lemmas.
- `widget.dfy` (`Widget`): the `Widget` class. Its methods hold the source's loops and state updates. Each method is proved against the specification functions above.

The table is modelled abstractly. A `Header(name)` line stands for a `<th colspan="4">` header row. A `Row(glyph, title, assignee, deadline)` line stands for a four-cell `<tr>`. The HTML strings are not modelled.

Where the prose description of the widget and the code disagree, the model follows the code:

- `listFrom` is not stamped on tasks by `getTodos` (it pushes the raw task). The model takes it as a field of each input task.
- The code has no `iconPosition`, `showBullets` or `spaced` options. Its header always spans 4 columns and every row has 4 cells.
- The description says a `USERS` notification re-renders once tasks are held. As written, the guard at line 40 never holds, so `SocketNotificationReceived` never schedules an update on `USERS`. The intended behaviour is modelled separately by `ReceiveUsersIntended`. See Findings.

## Model

| member | source | states |
|---|---|---|
| Flatten.OrderModes | MMM-Wunderlist-Enhanced.js:53-69 | With order "reversed" the flat list is the configured lists concatenated in order, each in its own order; with any other order, reversing the flat list gives exactly that concatenation |
| Flatten.NormalOrderAt | MMM-Wunderlist-Enhanced.js:58-63 | In "normal" mode, position k holds the task at position k counted from the end of the concatenation (repeated `unshift`) |
| Flatten.TodosPermutesLists | MMM-Wunderlist-Enhanced.js:55-64 | Both orders show the same multiset of tasks, and the count is the summed size of the configured lists, a repeated name counted each time |
| Flatten.ConcatSize | MMM-Wunderlist-Enhanced.js:55-64 | The concatenation is exactly as long as the configured lists together |
| Flatten.SkipsEmptyName | MMM-Wunderlist-Enhanced.js:56-57 | A configured name with no entry or an empty entry contributes nothing wherever it stands |
| Flatten.ConcatMembers | MMM-Wunderlist-Enhanced.js:55-60 | A task is in the flat list iff some configured name has an entry holding it |
| Flatten.ConcatAppend | MMM-Wunderlist-Enhanced.js:55 | Flattening distributes over splitting the list of configured names |
| Flatten.ReverseInvolution | MMM-Wunderlist-Enhanced.js:62 | Reversal, the effect of front insertion, is its own inverse |
| Flatten.ReversePermutes | MMM-Wunderlist-Enhanced.js:62 | Reversal keeps every task with its multiplicity |
| Flatten.Reverse | MMM-Wunderlist-Enhanced.js:62 | Front insertion preserves the number of tasks |
| Flatten.TwoListExample | MMM-Wunderlist-Enhanced.js:53-69 | inbox = [a, b], work = [c] gives [a, b, c] in "reversed" mode and [c, b, a] in "normal" mode |
| Sections.Keys | MMM-Wunderlist-Enhanced.js:102-103 | The section keys hold no duplicates, and a name is a key iff some task carries it as `listFrom` |
| Sections.KeysInFirstAppearanceOrder | MMM-Wunderlist-Enhanced.js:100-103 | Section keys are ordered by the first position at which each list appears in the flat list |
| Sections.FirstIndex | MMM-Wunderlist-Enhanced.js:102 | Gives the first position of a list in the flat list: it carries that list and no earlier task does |
| Sections.FindIndex | MMM-Wunderlist-Enhanced.js:105 | `findIndex` returns the first index holding the key, and -1 exactly when the key is absent |
| Sections.FilterMembers | MMM-Wunderlist-Enhanced.js:108-111 | A section holds exactly the tasks of the flat list whose `listFrom` is its key |
| Sections.FilterAbsent | MMM-Wunderlist-Enhanced.js:108-109 | A list that never occurs has an empty section |
| Sections.GroupSizesSum | MMM-Wunderlist-Enhanced.js:100-111 | Every task lands in exactly one section: section sizes add up to the flat list's length |
| Rows.RowOf | MMM-Wunderlist-Enhanced.js:111-117 | Star glyph iff starred; an assignee cell only when `showAssignee`, a truthy `assignee_id` and a directory are all present; the deadline cell equals `due_date` when `showDeadline` and `due_date` are truthy, and is otherwise empty |
| Table.Cap | MMM-Wunderlist-Enhanced.js:135-139 | A section shows no more rows than it has, none when `maximumEntries` is not positive, and otherwise all of them or exactly `maximumEntries` |
| Table.LayoutSize | MMM-Wunderlist-Enhanced.js:131-143 | The generated lines are one header per section plus the capped row count of each section |
| Table.LayoutHeaders | MMM-Wunderlist-Enhanced.js:133-134 | The header lines name the sections once each, in section order |
| Table.RenderShape | MMM-Wunderlist-Enhanced.js:95-145 | The rendered table's headers are the section keys, and its length is the key count plus the summed capped section sizes |
| Table.RenderUntruncated | MMM-Wunderlist-Enhanced.js:131-143 | With a cap of at least the task count, no row is dropped: one line per section plus one per task |
| Table.RenderHeadersOnly | MMM-Wunderlist-Enhanced.js:137 | A cap of zero or less leaves only the headers |
| Widget.UsersGuardAsWrittenNeverHolds | MMM-Wunderlist-Enhanced.js:40 | As written, the `USERS` guard is false for the start-up array and for every received snapshot |
| Widget.UsersGuardMeansTasksShown | MMM-Wunderlist-Enhanced.js:38-42 | The intended guard (some held list holds a task) holds iff some choice of configured lists would make `getTodos` return a task |
| Widget.SkippedUpdateHidesNothing | MMM-Wunderlist-Enhanced.js:38-42 | When the intended guard skips an update, a render under any configuration would show no task |
| Widget.Widget.constructor | MMM-Wunderlist-Enhanced.js:46-48 | The start state: the empty task array, no directory, not started, nothing sent |
| Widget.Widget.SocketNotificationReceived | MMM-Wunderlist-Enhanced.js:25-44 | `TASKS` replaces `tasks` and schedules an update; `STARTED` sends `addLists` with the configured lists, and only with `showAssignee` also sets `started` and sends `getUsers`; `USERS` replaces `users` and schedules an update only under the guard as written at line 40 (which never holds); unknown names change nothing; no other field changes; `started` implies `showAssignee` and both requests were sent |
| Widget.Widget.ReceiveUsersIntended | MMM-Wunderlist-Enhanced.js:38-42 | The `USERS` branch with the intended guard: replaces `users`, changes no other field, and appends one update iff some held list holds a task, nothing otherwise |
| Widget.UsersAfterTasksAsWritten | MMM-Wunderlist-Enhanced.js:25-44 | As written, `USERS`, then `TASKS` with one task, then `USERS` leaves only the update `TASKS` scheduled |
| Widget.UsersAfterTasksIntended | MMM-Wunderlist-Enhanced.js:25-44 | With the intended guard, the same sequence schedules a second update, and the next render shows one `inbox` header |
| Widget.OneTaskTable | MMM-Wunderlist-Enhanced.js:95-145 | A snapshot with one `inbox` task renders under exactly one `inbox` header with the default configuration |
| Widget.Widget.GetTodos | MMM-Wunderlist-Enhanced.js:53-69 | The nested push/unshift loops produce exactly the specified flat list |
| Widget.Widget.Group | MMM-Wunderlist-Enhanced.js:97-111 | The grouping loop yields the section keys in first-appearance order and, per key, the rows of its tasks in flat-list order |
| Widget.Widget.GenerateRows | MMM-Wunderlist-Enhanced.js:131-143 | The counting loop yields, per section, its header followed by its first `maximumEntries` rows and nothing else |
| Widget.Widget.GetDom | MMM-Wunderlist-Enhanced.js:87-147 | Every render sends `getUsers` iff `showAssignee` is set, keeps the widget invariant, changes nothing else, and returns the rendered table of the current tasks, directory and configuration |

## Left out

- The fade effect (lines 119-128) is left out. It is floating-point arithmetic on a DOM style property. The in-place clamp of `config.fadePoint` is left out with it, so the model's configuration is immutable.
- DOM construction, class names and the HTML templates (lines 78-85, 92-93, 145) are left out. Lines are abstract `Header` and `Row` values.
- `String.format` comes from an external script. The assignee cell carries the directory lookup as an option and does not model the text printed for a missing id.
- `getScripts`, `getStyles`, `Log.info`, the `CONFIG` and `CONNECTED` sends of `start`, and the host's `Module.register` lifecycle are left out. They are host plumbing.
- Socket transport and the 3000 ms animation of `updateDom` are left out. Updates and sends are entries in the effect log, with no timing or asynchrony.
- `maximumEntries` is an integer in the model. Non-integer numbers are not modelled.
- A configured list name equal to a built-in property of JavaScript objects or arrays (such as `length` or `constructor`) is not modelled. Such a lookup in `this.tasks` returns an inherited value rather than a task list.
- Options the code never reads (`interval`, `iconPosition`, `showBullets`, `spaced`) are not modelled.

## Findings

| source | as written | input that shows it | evidently intended | confidence | as-written member | corrected member |
|---|---|---|---|---|---|---|
| MMM-Wunderlist-Enhanced.js:40 | `this.tasks.length > 0` never holds. `tasks` is either the `[]` stored by `start` (length 0) or the `TASKS` payload. That payload is a plain object keyed by list name, as `getTodos` indexes it by name, and it has no `length`, so `undefined > 0` is false. A `USERS` notification therefore never schedules an update. | `TASKS` with `{"inbox": [task]}`, then `USERS` with any directory: no update is scheduled | Schedule an update on `USERS` once some held list holds a task | medium, not executed | Widget.UsersGuardAsWrittenNeverHolds | Widget.Widget.ReceiveUsersIntended |
