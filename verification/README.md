# ToDoList task store — a Dafny model

This project models the task store of a small command-line to-do list
(`Command.py`, class `ToDoList`). The store keeps an ordered list of tasks.
Each task has a description, a free-text priority, an optional due date and a
completed flag. The store offers four operations: add a task at the end,
remove the task at a 0-based index, mark the task at a 0-based index
completed, and list the tasks as numbered lines. After every change that
succeeds, the whole list is rewritten to the saved file (`tasks.json`). At
start-up the list is loaded from that file.

Layout:

- `tasks.dfy`, module `Tasks`: the `Task` record and the pure list edits
  (`Appended`, `RemovedAt`, `CompletedAt`). It also holds the abstract file
  contents `Storage` (`Missing`, `Corrupt`, `Stored(list)`) with `Load` and
  the lemmas about it; saving writes `Stored(list)`.
- `render.dfy`, module `Render`: the listing. `Display` gives the lines the
  list view prints: the fixed message "No tasks found." for an empty list,
  otherwise one line per task, numbered from 1, in the exact format
  `N. description - Priority: p, Status: Completed|Pending, Due Date: d|No due date`.
  The decimal number is produced by `NatToString`, which is proved to read
  back as the same number.
- `command.dfy`, module `Command`: class `ToDoList`. It has the fields `tasks`
  (the list in memory) and `storage` (what the saved file holds). Each
  operation is a method that updates those fields in place and returns the
  text the program prints. Every successful change ends with
  `storage == Stored(tasks)` (`Synced()`). A rejected index leaves both
  fields as they were. The warning reported by the start-up load is kept in
  the field `startupWarning`. Two client methods walk through example
  sessions.

Indices are unbounded integers. A negative index is rejected by the same
guard as an index past the end, so it is never treated as counting from the
end of the list.

The model follows the code in two places where a reader might expect
otherwise:

- Loading when the file is missing leaves the in-memory list as it is
  (`Command.py:17`). That list is empty only because the constructor has just
  created it; `Tasks.Load` keeps the list it is given.
- The interactive shell stores a due date typed by the user as a date-time
  object, not as text. Until the next reload, the listing would print it with
  a time part. The model treats every due date as the text it is shown as, so
  this difference is not represented (see Left out).

## Model

| member | source | states |
|---|---|---|
| `Tasks.Appended` | Command.py:29-36 | the list grows by one; the new task is last; every earlier task is unchanged |
| `Tasks.RemovedAt` | Command.py:41-42 | the length drops by one; tasks before the index keep their position; later tasks shift down one place; the multiset of tasks loses exactly the removed one |
| `Tasks.CompletedAt` | Command.py:49-50 | only the task at the index changes, and only its flag, which becomes true; length and all other tasks are unchanged |
| `Tasks.CompletedAtIdempotent` | Command.py:50 | marking the same in-range index twice gives the same list as marking it once |
| `Tasks.RemovedAtKeepsOrder` | Command.py:42 | any two remaining tasks keep their relative order after a removal and are found at their old or shifted positions |
| `Tasks.NewTask` | Command.py:30-35 | a new task record is not completed and carries the given description, priority and due date |
| `Tasks.Load` | Command.py:16-23 | a warning is given exactly when the file is undecodable, and then the list is empty; a missing file keeps the current list; a decoded file replaces it |
| `Tasks.LoadAfterSave` | Command.py:16-27 | loading a file written by a save gives back the same list, in the same order, with no warning |
| `Render.NatToString` | Command.py:63 | the position number is written as at least one decimal digit with no leading zero |
| `Render.NatToStringRoundTrip` | Command.py:63 | the decimal text of a position number parses back to that number |
| `Render.StatusLabel` | Command.py:61 | the status is "Completed" exactly when the task is completed, and "Pending" exactly when it is not |
| `Render.DueLabel` | Command.py:62 | a present, non-empty due date is shown as is; an absent or empty one is shown as "No due date" |
| `Render.TaskLineFormat` | Command.py:63 | `TaskLine`, the listing line: a task's line is its decimal number, ". ", its description, then exactly the labelled fields text |
| `Render.FieldsTextFormat` | Command.py:61-63 | `FieldsText`, the end of the listing line: it is " - Priority: " and the priority, ", Status: " and the status label, ", Due Date: " and the due-date field, in that order and nothing else |
| `Render.TaskLineNumbered` | Command.py:63 | a task's line starts with its number, then ". ", then its description, and the number can be read back from the line |
| `Render.Lines` | Command.py:60-63 | one line per task, in list order, numbered consecutively from the given first number |
| `Render.Display` | Command.py:56-63 | an empty list shows exactly "No tasks found."; otherwise there is one line per task in order, and task k is numbered k+1 |
| `Render.DisplayAfterComplete` | Command.py:48-63 | after a mark, only the marked task's line changes, and it now shows the task as completed |
| `Render.DisplayAfterRemove` | Command.py:40-63 | after a remove, an emptied list shows the fixed message; otherwise earlier lines are unchanged and each later task moves up one line with a renumbered line |
| `Render.DisplayAfterAppend` | Command.py:29-63 | after an add, a line for the new task, numbered one past the old length, is last; for a non-empty list the old lines before it are unchanged (an empty list's "No tasks found." is replaced) |
| `Command.AddedMessage` | Command.py:38 | the add confirmation is `Task "`, the description, then `" added.` |
| `Command.RemovedMessage` | Command.py:44 | the remove confirmation is `Task "`, the removed description, then `" removed.` |
| `Command.CompletedMessage` | Command.py:52 | the mark confirmation is `Task "`, the description, then `" marked as completed.` |
| `Command.ToDoList.constructor` | Command.py:12-14 | a new store starts from the empty list and loads the file over it; a missing or corrupt file leaves it empty; the load warning is kept, present exactly for a corrupt file |
| `Command.ToDoList.LoadTasks` | Command.py:16-23 | the list and the returned warning are those that `Load` gives for the file and the previous list; the file is unchanged |
| `Command.ToDoList.SaveTasks` | Command.py:25-27 | afterwards the file holds exactly the in-memory list, and loading it gives that list back with no warning |
| `Command.ToDoList.AddTask` | Command.py:29-38 | appends a not-completed task with the given fields, defaulting the priority to "medium" and the due date to none; saves; returns the "added" message naming the task |
| `Command.ToDoList.RemoveTask` | Command.py:40-46 | an in-range index removes that task, saves, and returns the message naming the removed task; any other index, negative ones included, changes neither the list nor the file and returns "Invalid task index." |
| `Command.ToDoList.MarkCompleted` | Command.py:48-54 | an in-range index marks only that task completed, saves, and returns the message naming it; any other index changes nothing and returns "Invalid task index." |
| `Command.ToDoList.DisplayTasks` | Command.py:56-63 | the loop builds exactly the lines `Display` specifies for the current list |
| `Command.AddMarkRemoveScenario` | Command.py:29-63 | starting from no file: add, list, mark twice, list, two out-of-range removes, remove, list. The listings show the task pending, then completed, then "No tasks found."; both out-of-range removes answer "Invalid task index."; the file ends holding the empty list |
| `Command.CorruptRecoveryScenario` | Command.py:12-37 | a corrupt file loads at start-up as the empty list with the warning; a later add with only a description saves a file holding just that task, with priority "medium" and no due date |

## Left out

- The interactive menu loop, its prompts and its parsing of typed input
  (`Command.py:65-104`). This includes turning a typed 1-based index into a
  0-based one, and failing on a non-numeric index or a malformed date.
- The real file operations: checking that the file exists, opening it, and
  JSON encoding and decoding. The file is the abstract `Storage` value. A
  decoded file is assumed to hold a list of well-formed task records. Other
  failures (a file that decodes to some other JSON value, unreadable bytes,
  permission errors) are not modelled.
- The date encoder (`Command.py:5-9`). Due dates are opaque text, so the
  model does not capture that a due date entered in the current session is
  listed with a time part until the list is reloaded from the file.
- Printing. Every message is returned as a string instead; the start-up
  load warning is kept in the field `startupWarning`.
- Python's dynamic values: descriptions and priorities are modelled as
  strings, although the program would store any value it is given.
