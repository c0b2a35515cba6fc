/** Specification of the rendered table: one header per section followed by
    that section's first `maximumEntries` rows. */
module Table {
  import opened Types
  import opened Sections
  import opened Rows

  /** How many of `n` rows a section shows when at most `max` are allowed. */
  function Cap(n: nat, max: int): (r: nat)
    ensures r <= n
    ensures max <= 0 ==> r == 0
    ensures 0 <= max ==> r <= max
    ensures 0 < max ==> r == n || r == max
  {
    if max <= 0 then 0 else if n <= max then n else max
  }

  /** The rows a section shows: the first ones, at most `max` of them. */
  function Take(rows: seq<Line>, max: int): seq<Line> {
    rows[..Cap(|rows|, max)]
  }

  /** The rendered lines: section by section, its header and then its first
      `max` rows. */
  function Layout(titles: seq<string>, rows: seq<seq<Line>>, max: int): seq<Line>
    requires |rows| == |titles|
    decreases |titles|
  {
    if titles == [] then []
    else
      var n := |titles| - 1;
      Layout(titles[..n], rows[..n], max) + [Header(titles[n])] + Take(rows[n], max)
  }

  /** The rows of each section named in `keys`, in flat-list order. */
  function Groups(todos: seq<Task>, keys: seq<string>, config: Config, users: Option<Users>): seq<seq<Line>> {
    seq(|keys|, k requires 0 <= k < |keys| => RowsOf(Filter(todos, keys[k]), config, users))
  }

  /** A key that has not occurred yet opens an empty section. */
  lemma GroupsNewKey(todos: seq<Task>, keys: seq<string>, key: string, config: Config, users: Option<Users>)
    requires !Occurs(todos, key)
    ensures Groups(todos, keys + [key], config, users) == Groups(todos, keys, config, users) + [[]]
  {
    FilterAbsent(todos, key);
  }

  /** Appending a task adds its row to the end of its own section only. */
  lemma GroupsSnoc(todos: seq<Task>, t: Task, keys: seq<string>, k: nat, config: Config, users: Option<Users>)
    requires k < |keys| && keys[k] == t.listFrom
    requires forall a, b :: 0 <= a < b < |keys| ==> keys[a] != keys[b]
    ensures Groups(todos + [t], keys, config, users) ==
            Groups(todos, keys, config, users)[k := Groups(todos, keys, config, users)[k] + [RowOf(t, config, users)]]
  {
    var before := Groups(todos, keys, config, users);
    var after := Groups(todos + [t], keys, config, users);
    assert (todos + [t])[..|todos|] == todos;
    RowsOfSnoc(Filter(todos, t.listFrom), t, config, users);
    forall m | 0 <= m < |keys|
      ensures after[m] == before[k := before[k] + [RowOf(t, config, users)]][m]
    {
      assert Filter(todos + [t], keys[m]) ==
             Filter(todos, keys[m]) + (if keys[m] == t.listFrom then [t] else []);
    }
  }

  /** The table drawn for the flat task list `todos`. */
  function Render(todos: seq<Task>, config: Config, users: Option<Users>): seq<Line> {
    var keys := Keys(todos);
    Layout(keys, Groups(todos, keys, config, users), config.maximumEntries)
  }

  /** The summed number of rows the sections show. */
  function CappedSizes(rows: seq<seq<Line>>, max: int): nat
    decreases |rows|
  {
    if rows == [] then 0
    else CappedSizes(rows[..|rows| - 1], max) + Cap(|rows[|rows| - 1]|, max)
  }

  /** The section names of the header lines, in order. */
  function HeaderNames(lines: seq<Line>): seq<string>
    decreases |lines|
  {
    if lines == [] then []
    else
      var last := lines[|lines| - 1];
      HeaderNames(lines[..|lines| - 1]) + (if last.Header? then [last.name] else [])
  }

  /** No line of `lines` is a header. */
  predicate AllRows(lines: seq<Line>) {
    forall i :: 0 <= i < |lines| ==> lines[i].Row?
  }

  /** The row counter of the generating loop: the row at position j is shown
      exactly when fewer than `max` rows came before it. */
  lemma TakeStep(rows: seq<Line>, j: nat, max: int)
    requires j < |rows|
    ensures Take(rows[..j + 1], max) == Take(rows[..j], max) + (if j < max then [rows[j]] else [])
  {
    assert rows[..j + 1][..j] == rows[..j];
  }

  /** The table holds one line per section plus the rows the sections show. */
  lemma {:induction false} LayoutSize(titles: seq<string>, rows: seq<seq<Line>>, max: int)
    requires |rows| == |titles|
    ensures |Layout(titles, rows, max)| == |titles| + CappedSizes(rows, max)
    decreases |titles|
  {
    if titles != [] {
      var n := |titles| - 1;
      LayoutSize(titles[..n], rows[..n], max);
    }
  }

  lemma {:induction false} HeaderNamesAppend(a: seq<Line>, b: seq<Line>)
    ensures HeaderNames(a + b) == HeaderNames(a) + HeaderNames(b)
    decreases |b|
  {
    if b == [] {
      assert a + b == a;
    } else {
      var b' := b[..|b| - 1];
      assert (a + b)[..|a + b| - 1] == a + b';
      HeaderNamesAppend(a, b');
    }
  }

  lemma {:induction false} HeaderNamesOfRows(lines: seq<Line>)
    requires AllRows(lines)
    ensures HeaderNames(lines) == []
    decreases |lines|
  {
    if lines != [] {
      HeaderNamesOfRows(lines[..|lines| - 1]);
    }
  }

  /** The headers of the table name the sections, each once, in order. */
  lemma {:induction false} LayoutHeaders(titles: seq<string>, rows: seq<seq<Line>>, max: int)
    requires |rows| == |titles|
    requires forall k :: 0 <= k < |rows| ==> AllRows(rows[k])
    ensures HeaderNames(Layout(titles, rows, max)) == titles
    decreases |titles|
  {
    if titles != [] {
      var n := |titles| - 1;
      var front := Layout(titles[..n], rows[..n], max);
      var shown := Take(rows[n], max);
      LayoutHeaders(titles[..n], rows[..n], max);
      HeaderNamesAppend(front + [Header(titles[n])], shown);
      HeaderNamesAppend(front, [Header(titles[n])]);
      assert AllRows(shown) by {
        assert AllRows(rows[n]);
      }
      HeaderNamesOfRows(shown);
      assert HeaderNames([Header(titles[n])]) == [titles[n]];
    }
  }

  /** The sections of `todos` are each shown in full when `max` is at least
      the length of the flat list. */
  lemma {:induction false} CappedGroups(todos: seq<Task>, keys: seq<string>, config: Config, users: Option<Users>)
    requires config.maximumEntries >= |todos|
    ensures CappedSizes(Groups(todos, keys, config, users), config.maximumEntries) == GroupSizes(todos, keys)
    decreases |keys|
  {
    if keys != [] {
      var n := |keys| - 1;
      assert Groups(todos, keys, config, users)[..n] == Groups(todos, keys[..n], config, users);
      CappedGroups(todos, keys[..n], config, users);
    }
  }

  /** The rendered table: its headers are the section keys (every list that
      occurs, once, in order of first appearance), and it holds one header
      per section plus at most `maximumEntries` rows of each section. */
  lemma RenderShape(todos: seq<Task>, config: Config, users: Option<Users>)
    ensures HeaderNames(Render(todos, config, users)) == Keys(todos)
    ensures |Render(todos, config, users)| ==
            |Keys(todos)| + CappedSizes(Groups(todos, Keys(todos), config, users), config.maximumEntries)
  {
    var keys := Keys(todos);
    var groups := Groups(todos, keys, config, users);
    forall k | 0 <= k < |groups| ensures AllRows(groups[k]) {
    }
    LayoutHeaders(keys, groups, config.maximumEntries);
    LayoutSize(keys, groups, config.maximumEntries);
  }

  /** With a cap no smaller than the task count nothing is dropped: the
      table holds one line per section and one per task. */
  lemma RenderUntruncated(todos: seq<Task>, config: Config, users: Option<Users>)
    requires config.maximumEntries >= |todos|
    ensures |Render(todos, config, users)| == |Keys(todos)| + |todos|
  {
    RenderShape(todos, config, users);
    CappedGroups(todos, Keys(todos), config, users);
    GroupSizesSum(todos);
  }

  /** A cap of zero or less leaves only the headers. */
  lemma {:induction false} RenderHeadersOnly(todos: seq<Task>, config: Config, users: Option<Users>)
    requires config.maximumEntries <= 0
    ensures Render(todos, config, users) == seq(|Keys(todos)|, k requires 0 <= k < |Keys(todos)| => Header(Keys(todos)[k]))
  {
    var keys := Keys(todos);
    HeadersOnly(keys, Groups(todos, keys, config, users), config.maximumEntries);
  }

  lemma {:induction false} HeadersOnly(titles: seq<string>, rows: seq<seq<Line>>, max: int)
    requires |rows| == |titles| && max <= 0
    ensures Layout(titles, rows, max) == seq(|titles|, k requires 0 <= k < |titles| => Header(titles[k]))
    decreases |titles|
  {
    if titles != [] {
      var n := |titles| - 1;
      HeadersOnly(titles[..n], rows[..n], max);
    }
  }
}
