/**
 * The task list as a value: one Todo record per entry of the JSON array kept
 * in the user's home directory, in insertion order. The functions here are
 * the lists that the commands save; the store (module Store) is proved
 * against them.
 */
module TodoList {

  /** One task as the source stores it; `id` and `createdAt` come from the clock. */
  datatype Todo = Todo(id: int, text: string, completed: bool, createdAt: string)

  /** `n` is a 1-based position that names an item of `ts`. */
  predicate InRange(ts: seq<Todo>, n: int)
  {
    1 <= n <= |ts|
  }

  /** The same task with its completion flag flipped; nothing else changes. */
  function Flip(t: Todo): (r: Todo)
    ensures r.completed != t.completed
    ensures r.id == t.id && r.text == t.text && r.createdAt == t.createdAt
  {
    t.(completed := !t.completed)
  }

  /** The list saved by toggling the item at 1-based position `n`. */
  function ToggleAt(ts: seq<Todo>, n: int): (r: seq<Todo>)
    requires InRange(ts, n)
    ensures |r| == |ts|
    ensures r[n - 1].completed == !ts[n - 1].completed
    ensures r[n - 1].id == ts[n - 1].id && r[n - 1].text == ts[n - 1].text
    ensures r[n - 1].createdAt == ts[n - 1].createdAt
    ensures forall j :: 0 <= j < |ts| && j != n - 1 ==> r[j] == ts[j]
  {
    ts[n - 1 := Flip(ts[n - 1])]
  }

  /** Toggling the same position twice gives back the original list. */
  lemma ToggleTwice(ts: seq<Todo>, n: int)
    requires InRange(ts, n)
    ensures InRange(ToggleAt(ts, n), n)
    ensures ToggleAt(ToggleAt(ts, n), n) == ts
  {
    var once := ToggleAt(ts, n);
    var twice := ToggleAt(once, n);
    assert forall j :: 0 <= j < |ts| ==> twice[j] == ts[j];
  }

  /** The list saved by removing the item at 1-based position `n`. */
  function RemoveAt(ts: seq<Todo>, n: int): (r: seq<Todo>)
    requires InRange(ts, n)
    ensures |r| == |ts| - 1
    ensures forall j :: 0 <= j < n - 1 ==> r[j] == ts[j]
    ensures forall j :: n - 1 <= j < |r| ==> r[j] == ts[j + 1]
    ensures multiset(r) + multiset{ts[n - 1]} == multiset(ts)
  {
    assert ts == ts[..n - 1] + [ts[n - 1]] + ts[n..];
    ts[..n - 1] + ts[n..]
  }

  /** `t` placed at 1-based position `n` of `ts`, later items shifting up. */
  function InsertAt(ts: seq<Todo>, n: int, t: Todo): (r: seq<Todo>)
    requires 1 <= n <= |ts| + 1
  {
    ts[..n - 1] + [t] + ts[n - 1..]
  }

  /** Putting the removed item back where it was restores the list. */
  lemma RemoveThenInsert(ts: seq<Todo>, n: int)
    requires InRange(ts, n)
    ensures InsertAt(RemoveAt(ts, n), n, ts[n - 1]) == ts
  {
    var r := RemoveAt(ts, n);
    assert r[..n - 1] == ts[..n - 1];
    assert r[n - 1..] == ts[n..];
  }

  /** Removing the item just inserted at `n` restores the list. */
  lemma InsertThenRemove(ts: seq<Todo>, n: int, t: Todo)
    requires 1 <= n <= |ts| + 1
    ensures InRange(InsertAt(ts, n, t), n)
    ensures RemoveAt(InsertAt(ts, n, t), n) == ts
  {
    var s := InsertAt(ts, n, t);
    assert s[..n - 1] == ts[..n - 1];
    assert s[n..] == ts[n - 1..];
  }

  /** The items of `ts` that are not completed, in their original order. */
  function Pending(ts: seq<Todo>): (r: seq<Todo>)
    ensures |r| <= |ts|
    ensures forall i :: 0 <= i < |r| ==> !r[i].completed
    ensures forall t :: t in r <==> t in ts && !t.completed
  {
    if ts == [] then []
    else
      var rest := Pending(ts[1..]);
      assert forall t :: t in ts <==> t == ts[0] || t in ts[1..];
      if ts[0].completed then rest else [ts[0]] + rest
  }

  /** The number of completed items in `ts`. */
  function DoneCount(ts: seq<Todo>): (k: nat)
    ensures k <= |ts|
  {
    if ts == [] then 0 else (if ts[0].completed then 1 else 0) + DoneCount(ts[1..])
  }

  /** Filtering drops exactly the completed items: the count clearCompleted reports. */
  lemma {:induction false} PendingLength(ts: seq<Todo>)
    ensures |ts| - |Pending(ts)| == DoneCount(ts)
  {
    if ts != [] {
      PendingLength(ts[1..]);
    }
  }

  /** The filter keeps relative order: it works piecewise over a concatenation. */
  lemma {:induction false} PendingConcat(a: seq<Todo>, b: seq<Todo>)
    ensures Pending(a + b) == Pending(a) + Pending(b)
  {
    if a == [] {
      assert a + b == b;
    } else {
      assert (a + b)[1..] == a[1..] + b;
      PendingConcat(a[1..], b);
    }
  }

  /** A list with no completed item is left as it is by the filter. */
  lemma {:induction false} PendingOfAllPending(ts: seq<Todo>)
    requires forall i :: 0 <= i < |ts| ==> !ts[i].completed
    ensures Pending(ts) == ts
  {
    if ts != [] {
      PendingOfAllPending(ts[1..]);
    }
  }

  /** No completed item at all is the same as a count of zero. */
  lemma {:induction false} DoneCountZero(ts: seq<Todo>)
    ensures DoneCount(ts) == 0 <==> forall i :: 0 <= i < |ts| ==> !ts[i].completed
  {
    if ts != [] {
      DoneCountZero(ts[1..]);
      assert forall i :: 1 <= i < |ts| ==> ts[i] == ts[1..][i - 1];
    }
  }

  /** Filtering twice is filtering once, and the second pass removes nothing. */
  lemma {:induction false} PendingIdempotent(ts: seq<Todo>)
    ensures Pending(Pending(ts)) == Pending(ts)
    ensures DoneCount(Pending(ts)) == 0
  {
    PendingOfAllPending(Pending(ts));
    DoneCountZero(Pending(ts));
  }

  /** The filter changes the list exactly when some item is completed. */
  lemma {:induction false} PendingUnchangedIff(ts: seq<Todo>)
    ensures Pending(ts) == ts <==> DoneCount(ts) == 0
  {
    PendingLength(ts);
    DoneCountZero(ts);
    if DoneCount(ts) == 0 {
      PendingOfAllPending(ts);
    }
  }
}
