/** Specification of task flattening: which tasks the widget shows and in
    what order, before they are grouped into sections. */
module Flatten {
  import opened Types

  /** The tasks a configured name contributes: its list, or nothing when the
      snapshot has no entry for it. */
  function Present(snapshot: Snapshot, name: string): seq<Task> {
    if name in snapshot then snapshot[name] else []
  }

  /** The tasks of every named list, list after list in the given order, each
      list in its own order; a name given twice contributes twice. */
  function Concat(snapshot: Snapshot, names: seq<string>): seq<Task>
    decreases |names|
  {
    if names == [] then []
    else Concat(snapshot, names[..|names| - 1]) + Present(snapshot, names[|names| - 1])
  }

  /** The summed sizes of the named lists, counting a repeated name each time. */
  function TotalSize(snapshot: Snapshot, names: seq<string>): nat
    decreases |names|
  {
    if names == [] then 0
    else TotalSize(snapshot, names[..|names| - 1]) + |Present(snapshot, names[|names| - 1])|
  }

  function Reverse<T>(s: seq<T>): (r: seq<T>)
    ensures |r| == |s|
  {
    if s == [] then [] else [s[|s| - 1]] + Reverse(s[..|s| - 1])
  }

  /** The flat task list the widget renders: the plain concatenation when
      `order` is "reversed", its mirror image for any other value. */
  function Todos(snapshot: Snapshot, config: Config): seq<Task> {
    Arrange(Concat(snapshot, config.lists), AppendMode(config))
  }

  /** The order tasks accumulate in: as encountered when appending, mirrored
      when each is put in front. */
  function Arrange(s: seq<Task>, append: bool): seq<Task> {
    if append then s else Reverse(s)
  }

  /** One more encountered task goes to the back when appending and to the
      front otherwise. */
  lemma ArrangeSnoc(s: seq<Task>, x: Task, append: bool)
    ensures Arrange(s + [x], append) == if append then Arrange(s, append) + [x] else [x] + Arrange(s, append)
  {
    if !append {
      ReverseSnoc(s, x);
    }
  }

  /** Taking one more configured name adds that name's tasks at the end. */
  lemma ConcatSnoc(snapshot: Snapshot, names: seq<string>, i: nat)
    requires i < |names|
    ensures Concat(snapshot, names[..i + 1]) == Concat(snapshot, names[..i]) + Present(snapshot, names[i])
  {
    assert names[..i + 1][..i] == names[..i];
  }

  /** Adding an element at the back of a sequence puts it at the front of the reversal. */
  lemma ReverseSnoc<T>(s: seq<T>, x: T)
    ensures Reverse(s + [x]) == [x] + Reverse(s)
  {
    assert (s + [x])[..|s|] == s;
  }

  lemma {:induction false} ReverseAt<T>(s: seq<T>, k: nat)
    requires k < |s|
    ensures Reverse(s)[k] == s[|s| - 1 - k]
  {
    if k > 0 {
      ReverseAt(s[..|s| - 1], k - 1);
    }
  }

  /** Reversal is its own inverse. */
  lemma {:induction false} ReverseInvolution<T>(s: seq<T>)
    ensures Reverse(Reverse(s)) == s
  {
    var r := Reverse(Reverse(s));
    forall k | 0 <= k < |s|
      ensures r[k] == s[k]
    {
      ReverseAt(Reverse(s), k);
      ReverseAt(s, |s| - 1 - k);
    }
  }

  /** Reversal keeps every element, with its multiplicity. */
  lemma {:induction false} ReversePermutes<T>(s: seq<T>)
    ensures multiset(Reverse(s)) == multiset(s)
  {
    if s != [] {
      ReversePermutes(s[..|s| - 1]);
      assert s == s[..|s| - 1] + [s[|s| - 1]];
    }
  }

  /** Flattening distributes over splitting the list of names. */
  lemma {:induction false} ConcatAppend(snapshot: Snapshot, a: seq<string>, b: seq<string>)
    ensures Concat(snapshot, a + b) == Concat(snapshot, a) + Concat(snapshot, b)
    decreases |b|
  {
    if b == [] {
      assert a + b == a;
    } else {
      var b' := b[..|b| - 1];
      assert (a + b)[..|a + b| - 1] == a + b';
      ConcatAppend(snapshot, a, b');
    }
  }

  /** A configured name with no entry, or with an empty entry, changes
      nothing wherever it stands. */
  lemma SkipsEmptyName(snapshot: Snapshot, a: seq<string>, name: string, b: seq<string>)
    requires name !in snapshot || snapshot[name] == []
    ensures Concat(snapshot, a + [name] + b) == Concat(snapshot, a + b)
  {
    ConcatAppend(snapshot, a + [name], b);
    ConcatAppend(snapshot, a, [name]);
    ConcatAppend(snapshot, a, b);
    assert Concat(snapshot, [name]) == Concat(snapshot, []) + Present(snapshot, name);
  }

  /** The flat list is as long as the configured lists together. */
  lemma {:induction false} ConcatSize(snapshot: Snapshot, names: seq<string>)
    ensures |Concat(snapshot, names)| == TotalSize(snapshot, names)
    decreases |names|
  {
    if names != [] {
      ConcatSize(snapshot, names[..|names| - 1]);
    }
  }

  /** A task is in the flat list exactly when one of the configured names has
      an entry holding it. */
  lemma {:induction false} ConcatMembers(snapshot: Snapshot, names: seq<string>, t: Task)
    ensures t in Concat(snapshot, names) <==>
            exists i :: 0 <= i < |names| && names[i] in snapshot && t in snapshot[names[i]]
    decreases |names|
  {
    if names != [] {
      var init := names[..|names| - 1];
      var last := names[|names| - 1];
      ConcatMembers(snapshot, init, t);
      if t in Concat(snapshot, names) {
        if t !in Concat(snapshot, init) {
          assert last in snapshot && t in snapshot[last];
        }
      }
      if exists i :: 0 <= i < |names| && names[i] in snapshot && t in snapshot[names[i]] {
        var i :| 0 <= i < |names| && names[i] in snapshot && t in snapshot[names[i]];
        if i < |names| - 1 {
          assert init[i] == names[i];
        }
      }
    }
  }

  /** In "reversed" mode the widget shows the configured lists in order,
      each in its own order; in every other mode, exactly the mirror image. */
  lemma OrderModes(snapshot: Snapshot, config: Config)
    ensures AppendMode(config) ==> Todos(snapshot, config) == Concat(snapshot, config.lists)
    ensures !AppendMode(config) ==> Reverse(Todos(snapshot, config)) == Concat(snapshot, config.lists)
  {
    if !AppendMode(config) {
      ReverseInvolution(Concat(snapshot, config.lists));
    }
  }

  /** Both orders show the same tasks, as many as the configured lists hold. */
  lemma TodosPermutesLists(snapshot: Snapshot, config: Config)
    ensures multiset(Todos(snapshot, config)) == multiset(Concat(snapshot, config.lists))
    ensures |Todos(snapshot, config)| == TotalSize(snapshot, config.lists)
  {
    ReversePermutes(Concat(snapshot, config.lists));
    ConcatSize(snapshot, config.lists);
  }

  /** Position k of the "normal" order holds the task counted k from the end
      of the plain concatenation. */
  lemma NormalOrderAt(snapshot: Snapshot, config: Config, k: nat)
    requires !AppendMode(config)
    requires k < |Concat(snapshot, config.lists)|
    ensures |Todos(snapshot, config)| == |Concat(snapshot, config.lists)|
    ensures Todos(snapshot, config)[k] == Concat(snapshot, config.lists)[|Concat(snapshot, config.lists)| - 1 - k]
  {
    ReverseAt(Concat(snapshot, config.lists), k);
  }

  /** Two lists "inbox" = [a, b] and "work" = [c]: [a, b, c] in "reversed"
      mode, [c, b, a] in "normal" mode. */
  lemma TwoListExample(a: Task, b: Task, c: Task)
    ensures Todos(map["inbox" := [a, b], "work" := [c]], Defaults.(lists := ["inbox", "work"], order := "reversed")) == [a, b, c]
    ensures Todos(map["inbox" := [a, b], "work" := [c]], Defaults.(lists := ["inbox", "work"])) == [c, b, a]
  {
    var snapshot := map["inbox" := [a, b], "work" := [c]];
    var names := ["inbox", "work"];
    assert names[..1] == ["inbox"];
    assert Concat(snapshot, names[..1]) == [a, b];
    assert Concat(snapshot, names) == [a, b, c];
    ReverseSnoc([a, b], c);
    ReverseSnoc([a], b);
    assert Reverse([a]) == [a];
    assert [a] + [b] == [a, b];
  }
}
