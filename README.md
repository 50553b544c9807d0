# A verified model of the rust-todo command-line task tracker

The tool keeps a personal to-do list in a file. Each run loads the whole
list, applies one of four commands (`add`, `list`, `done`, `remove`) and,
after a change, writes the whole list back. This project models the part
of `src/main.rs` that does the work: the task record, the priority parser
and the four command arms acting on the in-memory, ordered task collection.

- `options.dfy` (module `Options`): the optional value used for an absent
  due date, an absent status filter and a failed search.
- `priorities.dfy` (module `Priorities`): the `Priority` enumeration, lower-casing,
  and `ParsePriority`, which is case-insensitive and falls back to Medium.
- `tasks.dfy` (module `Tasks`): the `Task` record, the commands and their
  outcomes, and each command's effect as a pure function (`FindIndex`,
  `NewTask`, `WithDone`, `Without`, `Filtered`, `Step`, `Run`). The lemmas
  prove what each command promises, and
  `ExampleSession` replays a five-command session.
- `todo.dfy` (module `Todo`): class `TodoList`. It holds the collection as a
  `seq<Task>` field. `Add`, `MarkDone` and `Remove` update that field in
  place, the way `main` mutates its `Vec`. `Position` is the front-to-back
  search that `iter_mut().find` and `position` perform. `List` is the `for`
  loop with its `continue`. Each method is proved equal to the pure
  function of the same command. `Execute` dispatches one command.

The outcome a command reports is a value (`Added(warned)`, `NoTasks`,
`Listed(shown)`, `MarkedDone`, `Removed`, `NotFound`), not printed text.
`Outcome.Saves()` marks the outcomes after which the source calls
`save_tasks`. `Step` proves that every other outcome leaves the collection
unchanged.

One might expect each id to be unique within the collection. The code
does not keep that: a new id is the current length plus one, so an `add`
after a `remove` can repeat an id that is still present. The model follows
the code. `IdsCanCollide` exhibits the case, and no lemma claims
uniqueness. With duplicate ids, `done` and `remove` act on the first
match, as `find` and `position` do.

## Model

| member | source | states |
|---|---|---|
| `Priorities.Lower` | src/main.rs:75 | the lowered text has the input's length and lowers each character in place (ASCII letters) |
| `Priorities.LowerIdempotent` | src/main.rs:75 | lowering an already lowered text changes nothing |
| `Priorities.ParsePriority` | src/main.rs:74-84 | total; Low exactly when the lowered text is "low", High exactly when it is "high", Medium when it is "medium" or any unrecognised text |
| `Priorities.ParseIgnoresCase` | src/main.rs:75 | two texts that differ only in letter case parse to the same priority and both warn or neither does |
| `Priorities.ParseName` | src/main.rs:74-78 | each priority's tag, written in any case, parses back to that priority without the warning |
| `Priorities.IsPriorityWord` | src/main.rs:75-80 | no contract of its own: the condition under which the "defaulting to Medium" warning is printed; `ParsePriority`, `ParseName` and `TodoList.Add` carry it |
| `Tasks.NewTask` | src/main.rs:92-96 | no contract of its own: the record the add arm builds; `AddAppends` and `AddsNumberFromOne` carry it |
| `Tasks.Shows` | src/main.rs:113-114 | no contract of its own: the `continue` condition of the list loop; `FilterDone`, `FilterPending` and `FilterOtherShowsAll` carry it |
| `Tasks.Outcome.Saves` | src/main.rs:97-140 | no contract of its own: the outcomes after which `save_tasks` runs (lines 97, 130, 140); `Step` carries it |
| `Tasks.Run` | src/main.rs:88-140 | no contract of its own: successive invocations, each loading what the previous one saved; `AddsNumberFromOne` and `IdsCanCollide` carry it |
| `Tasks.FindIndex` | src/main.rs:128-138 | the search of `find` (line 128) and `position` (line 138): the result is the first position holding the id, or none when no task has it |
| `Tasks.WithDone` | src/main.rs:128-129 | marking keeps the length and every task's id |
| `Tasks.Without` | src/main.rs:138-139 | removal shortens the collection by one exactly when the id is present |
| `Tasks.Filtered` | src/main.rs:105-117 | the listing is no longer than the collection and holds only tasks the filter shows |
| `Tasks.Step` | src/main.rs:90-146 | only the outcomes that save change the collection; NotFound is reported exactly when `done`/`remove` name an absent id, MarkedDone/Removed when the id is present; `add` reports Added with the warning flag exactly when the priority text is not a priority word; `list` reports NoTasks on an empty collection, else the filtered tasks |
| `Tasks.AddAppends` | src/main.rs:92-96 | `add` appends exactly one task, keeps the old ones, numbers it length+1, leaves it not done, parses its priority, and keeps a supplied due date verbatim, else uses today |
| `Tasks.AddsNumberFromOne` | src/main.rs:92-96 | N `add`s from the empty collection give ids 1..N with their descriptions in insertion order |
| `Tasks.MarkDoneSetsFirst` | src/main.rs:128-129 | `done` sets the flag of the first task with the id; its other fields and all other tasks are unchanged |
| `Tasks.MarkDoneIdempotent` | src/main.rs:127-135 | `done` twice on the same id gives the same collection and outcome as once |
| `Tasks.RemoveDeletesFirst` | src/main.rs:138-139 | `remove` deletes the first task with the id; the length drops by one, the rest keep their relative order, and no other task is lost |
| `Tasks.MissingIdUnchanged` | src/main.rs:127-145 | `done` and `remove` with an absent id leave the collection unchanged and report NotFound |
| `Tasks.IdsCanCollide` | src/main.rs:92-139 | add, add, remove 1, add leaves two tasks both numbered 2 |
| `Tasks.FilteredConcat` | src/main.rs:105-117 | filtering distributes over concatenation, so the stored order is kept |
| `Tasks.FilteredCounts` | src/main.rs:113-117 | a shown task appears as often as it is stored; a hidden task never appears |
| `Tasks.FilterDone` | src/main.rs:114 | `--status done` lists exactly the done tasks |
| `Tasks.FilterPending` | src/main.rs:114 | `--status pending` lists exactly the tasks not done |
| `Tasks.FilterOtherShowsAll` | src/main.rs:113-117 | no filter, or any other filter value, lists the whole collection |
| `Tasks.DonePendingPartition` | src/main.rs:114 | the "done" and "pending" listings together are as long as the collection |
| `Tasks.ExampleSession` | src/main.rs:90-146 | a five-command session: add "Buy milk" high, add "Call Bob" bogus 2030-01-01 (Medium, warned), done 1, list --status pending shows only task 2, remove 1 leaves only task 2 |
| `Todo.TodoList.constructor` | src/main.rs:57-66 | a missing or unparsable store loads as the empty collection; a store that parses loads as its tasks in stored order (the panic on a store that exists but cannot be opened or read is not modelled, see Left out) |
| `Todo.TodoList.Add` | src/main.rs:91-98 | the new collection is the old one plus the new task; returns whether the priority text drew the warning |
| `Todo.TodoList.Position` | src/main.rs:128-138 | the front-to-back search that `find` (line 128) and `position` (line 138) perform returns the first position with the id, or none when no task has it |
| `Todo.TodoList.MarkDone` | src/main.rs:127-135 | reports whether the id was found; the new collection is `WithDone` of the old |
| `Todo.TodoList.Remove` | src/main.rs:137-145 | reports whether the id was found; the new collection is `Without` of the old |
| `Todo.TodoList.List` | src/main.rs:101-125 | "no tasks" on an empty collection, otherwise exactly the filtered tasks, in stored order |
| `Todo.TodoList.Execute` | src/main.rs:90-146 | one invocation updates the collection and reports the outcome as `Step` does |

## Left out

- Reading and writing the JSON store with serde and the file system (src/main.rs:57-72). This is I/O through foreign libraries. The constructor takes the file's abstract state instead (missing, unparsable, or a stored list). The save-then-load round trip and the fatal failure of a save are not modelled.
- Todo.TodoList.constructor: a store that exists but cannot be opened or read (no permission, a directory at `todo.json`, bytes that are not UTF-8) makes the load panic (src/main.rs:59, 61); `StoredFile` has no state for it, so the model does not capture that failure.
- Command-line parsing with clap (src/main.rs:27-55, 87) is a library wrapper. The four commands are the `Command` datatype. A malformed invocation, which never reaches the command arms, is not modelled.
- The clock call `Local::now()` (src/main.rs:94) is nondeterministic. "Today" is a parameter of `add`, `Step`, `Execute` and each `Invocation`.
- Coloured output and the exact printed strings (src/main.rs:80, 98, 103, 106-122) are presentation. Each command reports an `Outcome` value instead, and `List` returns the tasks it would print.
- `Priorities.Lower`: folds ASCII letters only, not Unicode case. Only two non-ASCII characters have a Unicode lowercase that contains an ASCII letter. The Kelvin sign becomes "k", and none of "low", "medium" or "high" contains a "k". U+0130 (İ) becomes "i" followed by the combining dot U+0307; "i" occurs in "medium" and "high", but U+0307 occurs in no token, so a text holding İ never lowers to one of them. Both foldings therefore recognise the same texts.
- Task ids and the `done`/`remove` arguments are `usize` in the source and `nat` here. The next id, length plus one, would overflow only with `usize::MAX` tasks in memory, which cannot happen.
- Two invocations running at once against the same file are not modelled. The model runs one command per invocation, in sequence (`Run`).
