/**
 * The command line: the command word and its arguments select one store
 * operation (or none), and `Execute` runs it against the store, as `main`
 * does for one invocation.
 */
module Cli {
  import opened Wrappers
  import opened TodoList
  import opened Text
  import opened Store

  /** Which argument a command was missing. */
  datatype Usage = NeedText | NeedCheckNumber | NeedRemoveNumber

  /** What the command switch decides to do. */
  datatype Command =
    | ShowAll
    | AddText(text: string)
    | Check(arg: string)
    | Delete(arg: string)
    | ClearDone
    | Help
    | Missing(usage: Usage)
    | Unknown(word: string)

  /** What one invocation shows the user. */
  datatype Outcome =
    | Listed(todos: seq<Todo>)
    | Ran(report: Report)
    | UsageError(usage: Usage)
    | HelpShown
    | UnknownCommand(word: string)

  /** The command words that need an argument after them. */
  predicate NeedsArgument(word: string)
  {
    word in {"add", "check", "toggle", "remove", "delete", "rm"}
  }

  /** Every command word the switch recognises. */
  predicate IsCommandWord(word: string)
  {
    NeedsArgument(word) || word in {"clear", "help", "--help", "-h"}
  }

  /** The commands that may change the saved list. */
  predicate Mutates(c: Command)
  {
    c.AddText? || c.Check? || c.Delete? || c.ClearDone?
  }

  /** The command switch of `main`, over the arguments after the program name. */
  function Dispatch(args: seq<string>): (c: Command)
    ensures c.ShowAll? <==> |args| == 0
    ensures c.Missing? <==> |args| == 1 && NeedsArgument(args[0])
    ensures c.Unknown? <==> |args| > 0 && !IsCommandWord(args[0])
    ensures c.Unknown? ==> c.word == args[0]
    ensures Mutates(c) ==> |args| > 0 && (|args| >= 2 || args[0] == "clear")
    ensures c.AddText? ==> args[0] == "add"
    ensures c.Check? ==> args[0] in {"check", "toggle"}
    ensures c.Delete? ==> args[0] in {"remove", "delete", "rm"}
    ensures c.ClearDone? <==> |args| > 0 && args[0] == "clear"
    ensures c.Help? <==> |args| > 0 && args[0] in {"help", "--help", "-h"}
  {
    if |args| == 0 then ShowAll
    else
      var word := args[0];
      if word == "add" then
        if |args| < 2 then Missing(NeedText) else AddText(NormalizeText(args[1..]))
      else if word == "check" || word == "toggle" then
        if |args| < 2 then Missing(NeedCheckNumber) else Check(args[1])
      else if word == "remove" || word == "delete" || word == "rm" then
        if |args| < 2 then Missing(NeedRemoveNumber) else Delete(args[1])
      else if word == "clear" then ClearDone
      else if word == "help" || word == "--help" || word == "-h" then Help
      else Unknown(word)
  }

  /** Aliases select the same command, whatever follows them. */
  lemma DispatchAliases(rest: seq<string>)
    ensures Dispatch(["toggle"] + rest) == Dispatch(["check"] + rest)
    ensures Dispatch(["delete"] + rest) == Dispatch(["remove"] + rest)
    ensures Dispatch(["rm"] + rest) == Dispatch(["remove"] + rest)
    ensures Dispatch(["--help"] + rest) == Dispatch(["help"] + rest)
    ensures Dispatch(["-h"] + rest) == Dispatch(["help"] + rest)
  {
    assert (["toggle"] + rest)[1..] == rest && (["check"] + rest)[1..] == rest;
  }

  /** Only the first argument after `check` or `remove` is used; the rest is ignored. */
  lemma DispatchIgnoresExtra(word: string, n: string, extra: seq<string>)
    requires word in {"check", "toggle", "remove", "delete", "rm"}
    ensures Dispatch([word, n] + extra) == if word in {"check", "toggle"} then Check(n) else Delete(n)
  {
  }

  /** `add` stores all its words, joined and with the outer quotes cut off. */
  lemma DispatchAdd(words: seq<string>)
    requires |words| > 0
    ensures Dispatch(["add"] + words) == AddText(StripQuotes(Join(words)))
  {
    assert (["add"] + words)[1..] == words;
  }

  /**
   * One invocation: `args` are the arguments after the program name,
   * `parse` stands for parseInt (None for NaN), and `id` and `createdAt` are
   * the clock readings a new task would get.
   */
  method Execute(store: TodoStore, args: seq<string>, parse: string -> Option<int>, id: int, createdAt: string)
    returns (out: Outcome)
    modifies store
    ensures var c := Dispatch(args);
      !Mutates(c) ==> store.todos == old(store.todos)
    ensures var c := Dispatch(args);
      (c.ShowAll? ==> out == Listed(old(store.todos))) &&
      (c.Help? ==> out == HelpShown) &&
      (c.Missing? ==> out == UsageError(c.usage)) &&
      (c.Unknown? ==> out == UnknownCommand(args[0]))
    ensures var c := Dispatch(args);
      c.AddText? ==>
        store.todos == old(store.todos) + [Todo(id, c.text, false, createdAt)] && out == Ran(Added(c.text))
    ensures var c := Dispatch(args);
      c.ClearDone? ==>
        store.todos == Pending(old(store.todos)) && out == Ran(Cleared(DoneCount(old(store.todos))))
    ensures var c := Dispatch(args);
      c.Check? && parse(c.arg).Some? && InRange(old(store.todos), parse(c.arg).value) ==>
        store.todos == ToggleAt(old(store.todos), parse(c.arg).value) &&
        out == Ran(Toggled(store.todos[parse(c.arg).value - 1]))
    ensures var c := Dispatch(args);
      c.Delete? && parse(c.arg).Some? && InRange(old(store.todos), parse(c.arg).value) ==>
        store.todos == RemoveAt(old(store.todos), parse(c.arg).value) &&
        out == Ran(Removed(old(store.todos)[parse(c.arg).value - 1]))
    ensures var c := Dispatch(args);
      (c.Check? || c.Delete?) && parse(c.arg).Some? && !InRange(old(store.todos), parse(c.arg).value) ==>
        store.todos == old(store.todos) && out == Ran(InvalidNumber)
    ensures var c := Dispatch(args);
      c.Check? && parse(c.arg).None? ==> store.todos == old(store.todos) && out == Ran(TypeError)
    ensures var c := Dispatch(args);
      c.Delete? && parse(c.arg).None? ==>
        store.todos == (if |old(store.todos)| > 0 then RemoveAt(old(store.todos), 1) else old(store.todos)) &&
        out == Ran(if |old(store.todos)| > 0 then Removed(old(store.todos)[0]) else TypeError)
  {
    var c := Dispatch(args);
    match c
    case ShowAll =>
      out := Listed(store.todos);
    case AddText(text) =>
      var report := store.Add(text, id, createdAt);
      out := Ran(report);
    case Check(arg) =>
      var report := store.Toggle(parse(arg));
      out := Ran(report);
    case Delete(arg) =>
      var report := store.Remove(parse(arg));
      out := Ran(report);
    case ClearDone =>
      var report := store.ClearCompleted();
      out := Ran(report);
    case Help =>
      out := HelpShown;
    case Missing(usage) =>
      out := UsageError(usage);
    case Unknown(word) =>
      out := UnknownCommand(word);
  }
}
