/**
 * The task store. The field `todos` stands for the JSON file: each command
 * loads it into a local list (reading the field), changes that list at most
 * once, and saves it whole (assigning the field).
 */
module Store {
  import opened Wrappers
  import opened TodoList

  /** What a store operation reports on the console. */
  datatype Report =
    | Added(text: string)
    | Toggled(item: Todo)      // the item after the flip
    | Removed(item: Todo)
    | Cleared(count: nat)
    | InvalidNumber
    | TypeError                // an uncaught exception on a non-numeric index

  class TodoStore {
    var todos: seq<Todo>

    /** A store whose file holds `saved`. */
    constructor (saved: seq<Todo>)
      ensures todos == saved
    {
      todos := saved;
    }

    /** Appends a pending task with the given text, id and creation time. */
    method Add(text: string, id: int, createdAt: string) returns (report: Report)
      modifies this
      ensures todos == old(todos) + [Todo(id, text, false, createdAt)]
      ensures |todos| == |old(todos)| + 1 && todos[..|old(todos)|] == old(todos)
      ensures report == Added(text)
    {
      var list := todos;
      list := list + [Todo(id, text, false, createdAt)];
      todos := list;
      report := Added(text);
    }

    /**
     * Flips the completion flag of the item at 1-based position `index`.
     * `index` is the parsed argument; None stands for NaN, for which the
     * range check passes and reading the item throws before anything is saved.
     */
    method Toggle(index: Option<int>) returns (report: Report)
      modifies this
      ensures index.Some? && InRange(old(todos), index.value) ==>
        todos == ToggleAt(old(todos), index.value) && report == Toggled(todos[index.value - 1])
      ensures index.Some? && !InRange(old(todos), index.value) ==>
        todos == old(todos) && report == InvalidNumber
      ensures index.None? ==> todos == old(todos) && report == TypeError
    {
      var list := todos;
      if index.None? {
        return TypeError;
      }
      var i := index.value - 1;
      if i < 0 || i >= |list| {
        return InvalidNumber;
      }
      list := list[i := list[i].(completed := !list[i].completed)];
      todos := list;
      report := Toggled(list[i]);
    }

    /**
     * Splices out the item at 1-based position `index`. For None (NaN) the
     * range check passes and the splice starts at 0: the first item goes; on
     * an empty list the unchanged list is saved and reading the removed item
     * throws.
     */
    method Remove(index: Option<int>) returns (report: Report)
      modifies this
      ensures index.Some? && InRange(old(todos), index.value) ==>
        todos == RemoveAt(old(todos), index.value) && report == Removed(old(todos)[index.value - 1])
      ensures index.Some? && !InRange(old(todos), index.value) ==>
        todos == old(todos) && report == InvalidNumber
      ensures index.None? && |old(todos)| > 0 ==>
        todos == RemoveAt(old(todos), 1) && report == Removed(old(todos)[0])
      ensures index.None? && |old(todos)| == 0 ==> todos == [] && report == TypeError
    {
      var list := todos;
      var start := 0;
      if index.Some? {
        var i := index.value - 1;
        if i < 0 || i >= |list| {
          return InvalidNumber;
        }
        start := i;
      }
      if start < |list| {
        var removed := list[start];
        list := list[..start] + list[start + 1..];
        todos := list;
        report := Removed(removed);
      } else {
        todos := list;
        report := TypeError;
      }
    }

    /** Saves only the pending items and reports how many were dropped. */
    method ClearCompleted() returns (report: Report)
      modifies this
      ensures todos == Pending(old(todos))
      ensures report == Cleared(DoneCount(old(todos)))
      ensures report.count == |old(todos)| - |todos|
    {
      var list := todos;
      var remaining := Pending(list);
      PendingLength(list);
      var removed := |list| - |remaining|;
      todos := remaining;
      report := Cleared(removed);
    }
  }

  /** Toggling the same valid position twice leaves the saved list as it was. */
  method ToggleTwiceRestores(store: TodoStore, n: int)
    requires InRange(store.todos, n)
    modifies store
    ensures store.todos == old(store.todos)
  {
    var first := store.Toggle(Some(n));
    var second := store.Toggle(Some(n));
    TodoList.ToggleTwice(old(store.todos), n);
  }

  /** A second clear removes nothing and leaves the list as the first one saved it. */
  method ClearTwice(store: TodoStore) returns (second: Report)
    modifies store
    ensures store.todos == Pending(old(store.todos))
    ensures second == Cleared(0)
  {
    var first := store.ClearCompleted();
    PendingIdempotent(old(store.todos));
    second := store.ClearCompleted();
  }

  /**
   * Adding "A" and "B" to an empty list, checking the first and clearing
   * leaves only "B", now at position 1.
   */
  method AddAddCheckClear(store: TodoStore, ids: (int, int), times: (string, string))
    requires store.todos == []
    modifies store
    ensures store.todos == [Todo(ids.1, "B", false, times.1)]
  {
    var a := Todo(ids.0, "A", false, times.0);
    var b := Todo(ids.1, "B", false, times.1);
    var report := store.Add("A", ids.0, times.0);
    report := store.Add("B", ids.1, times.1);
    assert store.todos == [a, b];
    report := store.Toggle(Some(1));
    assert store.todos == [Flip(a), b];
    report := store.ClearCompleted();
    assert Pending([Flip(a), b]) == [b] by {
      assert [Flip(a), b][1..] == [b];
      assert [b][1..] == [];
    }
  }
}
