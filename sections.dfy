/** Specification of section grouping: the section keys of a flat task list
    and the tasks each section holds. */
module Sections {
  import opened Types

  /** Some task of `todos` belongs to list `key`. */
  predicate Occurs(todos: seq<Task>, key: string) {
    exists i :: 0 <= i < |todos| && todos[i].listFrom == key
  }

  /** The section keys: every `listFrom` value of `todos`, once each, in the
      order of first appearance. */
  function Keys(todos: seq<Task>): (r: seq<string>)
    ensures forall a, b :: 0 <= a < b < |r| ==> r[a] != r[b]
    ensures forall key :: key in r <==> Occurs(todos, key)
    decreases |todos|
  {
    if todos == [] then []
    else
      var init := todos[..|todos| - 1];
      var key := todos[|todos| - 1].listFrom;
      var earlier := Keys(init);
      assert forall k :: Occurs(init, k) ==> Occurs(todos, k);
      assert forall k :: Occurs(todos, k) && k != key ==> Occurs(init, k);
      if key in earlier then earlier else earlier + [key]
  }

  /** The tasks of section `key`, in the order they appear in `todos`. */
  function Filter(todos: seq<Task>, key: string): (r: seq<Task>)
    ensures |r| <= |todos|
    decreases |todos|
  {
    if todos == [] then []
    else
      var rest := Filter(todos[..|todos| - 1], key);
      if todos[|todos| - 1].listFrom == key then rest + [todos[|todos| - 1]] else rest
  }

  /** Where section `key` first appears in `todos`. */
  function FirstIndex(todos: seq<Task>, key: string): (r: nat)
    requires Occurs(todos, key)
    ensures r < |todos| && todos[r].listFrom == key
    ensures forall j :: 0 <= j < r ==> todos[j].listFrom != key
    decreases |todos|
  {
    var init := todos[..|todos| - 1];
    if Occurs(init, key) then FirstIndex(init, key) else |todos| - 1
  }

  /** The number of times `key` appears in `keys`. */
  function Count(keys: seq<string>, key: string): nat
    decreases |keys|
  {
    if keys == [] then 0
    else Count(keys[..|keys| - 1], key) + (if keys[|keys| - 1] == key then 1 else 0)
  }

  /** The summed sizes of the sections named by `keys`. */
  function GroupSizes(todos: seq<Task>, keys: seq<string>): nat
    decreases |keys|
  {
    if keys == [] then 0
    else GroupSizes(todos, keys[..|keys| - 1]) + |Filter(todos, keys[|keys| - 1])|
  }

  /** `Array.prototype.findIndex` with `===` over the section keys: the first
      index holding `key`, or -1. */
  method FindIndex(keys: seq<string>, key: string) returns (k: int)
    ensures -1 <= k < |keys|
    ensures 0 <= k ==> keys[k] == key && forall j :: 0 <= j < k ==> keys[j] != key
    ensures k == -1 <==> key !in keys
  {
    k := 0;
    while k < |keys| && keys[k] != key
      invariant 0 <= k <= |keys|
      invariant forall j :: 0 <= j < k ==> keys[j] != key
    {
      k := k + 1;
    }
    if k == |keys| {
      k := -1;
    }
  }

  /** Section `key` holds exactly the tasks of `todos` whose list is `key`,
      each of them belonging to that list. */
  lemma {:induction false} FilterMembers(todos: seq<Task>, key: string, t: Task)
    ensures t in Filter(todos, key) <==> t in todos && t.listFrom == key
    decreases |todos|
  {
    if todos != [] {
      var init := todos[..|todos| - 1];
      FilterMembers(init, key, t);
      assert todos == init + [todos[|todos| - 1]];
    }
  }

  /** A list that never appears has an empty section. */
  lemma {:induction false} FilterAbsent(todos: seq<Task>, key: string)
    requires !Occurs(todos, key)
    ensures Filter(todos, key) == []
    decreases |todos|
  {
    if todos != [] {
      var init := todos[..|todos| - 1];
      assert !Occurs(init, key) by {
        forall i | 0 <= i < |init| ensures init[i].listFrom != key {
          assert init[i] == todos[i];
        }
      }
      FilterAbsent(init, key);
    }
  }

  /** The keys come in order of first appearance: an earlier key first
      appears before a later one. */
  lemma {:induction false} KeysInFirstAppearanceOrder(todos: seq<Task>, a: nat, b: nat)
    requires a < b < |Keys(todos)|
    ensures Occurs(todos, Keys(todos)[a]) && Occurs(todos, Keys(todos)[b])
    ensures FirstIndex(todos, Keys(todos)[a]) < FirstIndex(todos, Keys(todos)[b])
    decreases |todos|
  {
    var keys := Keys(todos);
    assert keys[a] in keys && keys[b] in keys;
    var init := todos[..|todos| - 1];
    var earlier := Keys(init);
    if b < |earlier| {
      assert keys[a] == earlier[a] && keys[b] == earlier[b];
      assert earlier[a] in earlier && earlier[b] in earlier;
      KeysInFirstAppearanceOrder(init, a, b);
    } else {
      assert keys[a] == earlier[a] && earlier[a] in earlier;
      assert keys[b] !in earlier;
      assert FirstIndex(todos, keys[a]) == FirstIndex(init, keys[a]);
    }
  }

  lemma {:induction false} CountDistinct(keys: seq<string>, key: string)
    requires forall a, b :: 0 <= a < b < |keys| ==> keys[a] != keys[b]
    ensures Count(keys, key) == if key in keys then 1 else 0
    decreases |keys|
  {
    if keys != [] {
      var init := keys[..|keys| - 1];
      CountDistinct(init, key);
      assert keys == init + [keys[|keys| - 1]];
    }
  }

  /** Appending a task grows exactly the sections named after its list. */
  lemma {:induction false} GroupSizesSnoc(todos: seq<Task>, t: Task, keys: seq<string>)
    ensures GroupSizes(todos + [t], keys) == GroupSizes(todos, keys) + Count(keys, t.listFrom)
    decreases |keys|
  {
    assert (todos + [t])[..|todos|] == todos;
    if keys != [] {
      GroupSizesSnoc(todos, t, keys[..|keys| - 1]);
    }
  }

  /** Every task lands in exactly one section: the section sizes add up to
      the length of the flat list. */
  lemma {:induction false} GroupSizesSum(todos: seq<Task>)
    ensures GroupSizes(todos, Keys(todos)) == |todos|
    decreases |todos|
  {
    if todos != [] {
      var init := todos[..|todos| - 1];
      var t := todos[|todos| - 1];
      assert todos == init + [t];
      var earlier := Keys(init);
      GroupSizesSum(init);
      GroupSizesSnoc(init, t, earlier);
      CountDistinct(earlier, t.listFrom);
      if t.listFrom !in earlier {
        assert !Occurs(init, t.listFrom);
        FilterAbsent(init, t.listFrom);
        assert (earlier + [t.listFrom])[..|earlier|] == earlier;
      }
    }
  }
}
