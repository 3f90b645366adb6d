# Todo CLI — a Dafny model of the task-list core

The program is a command-line to-do list kept in a JSON file in the
user's home directory. Tasks are addressed by their 1-based position in
the list. Each list-changing command loads the whole list, changes it at
most once and writes the whole list back: `add` appends, `check`/`toggle`
flips a task's completion flag, `remove`/`delete`/`rm` splices a task out,
and `clear` drops the completed tasks. Not every invocation saves:

- `help`, an unknown command and a missing argument load nothing and save
  nothing.
- Running the program without a command loads the list and shows it,
  without saving.
- `check` or `remove` with an out-of-range index, and `check` with a
  non-numeric index, return before the save.

The model has five modules:

- `Wrappers` (wrappers.dfy): the `Option` type. `Some(n)` is what
  `parseInt` returns for a number and `None` stands for NaN.
- `TodoList` (todo_list.dfy): the `Todo` record (`id`, `text`,
  `completed`, `createdAt`) and the lists the commands save, as pure
  functions. `ToggleAt` and `RemoveAt` give the list after a toggle or a
  removal. `Pending` is the filter of `clearCompleted`. Lemmas prove
  involution, reinsertion, order preservation, the removed count and
  idempotence.
- `Text` (text.dfy): the normaliser for `add`. It joins the words with
  spaces and cuts off one leading and one trailing `"` or `'`. `Split`
  serves as the inverse of `Join`.
- `Store` (store.dfy): the class `TodoStore`. Its field `todos` stands for
  the file. Each method reads the field into a local list (the load),
  changes that list, and assigns it back (the save). `Toggle`, `Remove` and
  `ClearCompleted` are proved against `ToggleAt`, `RemoveAt` and `Pending`.
  `Add` states the appended list directly.
- `Cli` (cli.dfy): `Dispatch` is the command switch of `main`, with its
  aliases and argument-count guards. `Execute` runs one invocation against
  the store.

Where the code differs from what a reader might expect, the model follows
the code:

- No `completedAt` field is ever written. Toggling only flips `completed`.
- A non-numeric index is not rejected. `parseInt` gives NaN, and both range
  comparisons are false for NaN.
  - `check abc` then reads a property of `undefined` and throws. The throw
    comes before the save, so the list is unchanged (`TypeError` report).
  - `remove abc` splices from position 0, so it removes the FIRST task and
    saves. On an empty list it saves the list unchanged and then throws.
- `check` and `remove` take the first argument after the command and
  ignore any further arguments.
- The leading and trailing quotes are stripped independently, so they need
  not match. `todo add ""` stores an empty text.

## Model

| member | source | states |
|---|---|---|
| `TodoList.Flip` | todo.js:67 | the flag is negated; id, text and createdAt are kept |
| `TodoList.ToggleAt` | todo.js:58-68 | for 1 ≤ n ≤ length: same length, item n-1 has its flag negated and its other fields kept, every other item is unchanged |
| `TodoList.ToggleTwice` | todo.js:58-68 | toggling the same valid position twice restores the original list |
| `TodoList.RemoveAt` | todo.js:74-84 | length drops by one; earlier items keep their positions; later items shift down by one; the removed item plus the result is the old multiset |
| `TodoList.RemoveThenInsert` | todo.js:83 | putting the removed item back at its position restores the list |
| `TodoList.InsertThenRemove` | todo.js:83 | removing an item just inserted at n restores the list |
| `TodoList.Pending` | todo.js:90 | the result holds exactly the items of the input that are not completed, and none that are completed; it is no longer than the input |
| `TodoList.DoneCount` | todo.js:91 | the completed count is at most the length |
| `TodoList.PendingLength` | todo.js:88-94 | old length minus new length equals the number of completed items |
| `TodoList.PendingConcat` | todo.js:90 | the filter works piecewise over a concatenation, so relative order is preserved |
| `TodoList.PendingOfAllPending` | todo.js:90 | a list with no completed item is left unchanged |
| `TodoList.DoneCountZero` | todo.js:91 | the count is zero iff no item is completed |
| `TodoList.PendingIdempotent` | todo.js:88-94 | filtering twice equals filtering once; after one clear, nothing completed is left to remove |
| `TodoList.PendingUnchangedIff` | todo.js:88-94 | clearing changes the list iff some item is completed |
| `Text.Join` | todo.js:126 | the first word is a prefix of the result; with two or more words a space follows it |
| `Text.Split` | todo.js:126 | specification helper, not in the source: the reference inverse of the join, used by `SplitJoin`; a split always yields at least one piece |
| `Text.SplitJoin` | todo.js:126 | joining words that contain no space and splitting the result gives the words back |
| `Text.StripQuotes` | todo.js:126 | at most one character is cut from each end; without a leading quote the result is a prefix, and without a trailing quote it is a suffix |
| `Text.StripBothEnds` | todo.js:126 | a quote at each end is removed even if the two differ; the interior is kept verbatim |
| `Text.StripLeadingOnly` | todo.js:126 | with only a leading quote, only that character is removed |
| `Text.StripTrailingOnly` | todo.js:126 | with only a trailing quote, only that character is removed; a lone quote gives "" |
| `Text.StripNeither` | todo.js:126 | text without a quote at either end is unchanged |
| `Text.StripOnlyOne` | todo.js:126 | doubled quotes lose one quote per end, not both |
| `Text.NormalizeText` | todo.js:126 | the stored text is the joined text shortened by at most two characters |
| `Text.NormalizeQuotedWords` | todo.js:126 | quoted words keep their single joining spaces and lose only the outer quotes |
| `Store.TodoStore.constructor` | todo.js:11-21 | the store starts with the list held in the file |
| `Store.TodoStore.Add` | todo.js:46-56 | the list grows by one; the new last item has the given text, id and createdAt and is not completed; all earlier items are unchanged |
| `Store.TodoStore.Toggle` | todo.js:58-72 | a valid index saves `ToggleAt`; an out-of-range index reports an invalid number and saves nothing; NaN throws before any save |
| `Store.TodoStore.Remove` | todo.js:74-86 | a valid index saves `RemoveAt` and reports the removed item; an out-of-range index saves nothing; NaN removes the first item, or throws on an empty list, which stays unchanged |
| `Store.TodoStore.ClearCompleted` | todo.js:88-95 | saves `Pending` of the old list; the reported count is old length minus new length, which is the number of completed items |
| `Store.ToggleTwiceRestores` | todo.js:58-68 | two toggles of one valid position leave the saved list as it was |
| `Store.ClearTwice` | todo.js:88-94 | a second clear reports 0 and the saved list is the first clear's |
| `Store.AddAddCheckClear` | todo.js:46-94 | add "A", add "B", check 1 and clear leave only "B", at position 1 |
| `Cli.Dispatch` | todo.js:116-168 | no arguments means the list is shown; a usage error happens iff an argument-taking command has no argument; an unknown command happens iff the word is not recognised; `clear` gives the clear command and `help`/`--help`/`-h` give help, whatever follows; add, check and remove come only from their own words (and aliases), so only add, check, remove and clear can mutate |
| `Cli.DispatchAliases` | todo.js:130-157 | toggle = check; delete = rm = remove; --help = -h = help, whatever follows |
| `Cli.DispatchIgnoresExtra` | todo.js:130-147 | check and remove use only their first argument |
| `Cli.DispatchAdd` | todo.js:121-128 | add with words stores their join with the outer quotes cut off |
| `Cli.Execute` | todo.js:116-168 | a usage error, unknown command, help or list call leaves the list unchanged; add, clear, toggle and remove save what the store operations promise; an out-of-range index saves nothing; a non-numeric index makes check throw without saving and makes remove drop the first task (or throw on an empty list) |

## Left out

- `loadTodos`/`saveTodos` (todo.js:11-29): file access, JSON parsing and
  serialisation, and the logged recovery from an unreadable file are I/O.
  The store's field stands for the file's contents.
- A failed save (todo.js:24-28) is not modelled. `saveTodos` only logs a
  write error, so the file keeps its old content while the command still
  prints its success message (todo.js:55). The model always assigns the
  field.
- `Date.now()` and `new Date().toISOString()` (todo.js:49, todo.js:52) read
  the clock. `id` and `createdAt` are parameters.
- `parseInt` (todo.js:60, todo.js:76) is a parameter `parse: string ->
  Option<int>`. The model does not cover its JavaScript rules (whitespace,
  sign, hexadecimal prefix, trailing garbage).
- `displayTodos` and `showHelp` (todo.js:31-44, todo.js:97-113) only print.
  They are represented by the `Listed` and `HelpShown` outcomes. The console
  messages become `Report` and `Outcome` values, without their wording.
- Process exit status: the program always exits normally, except for the
  thrown `TypeError`, which becomes a report value.
- A `completedAt` timestamp and unique ids: the code writes neither.
- Concurrent invocations racing on the same file.
