/** The task store: an ordered list of tasks held in memory and rewritten
    in full to its saved file after every change that succeeds. */
module Command {
  import opened Tasks
  import opened Render

  /** Opening of every confirmation: the word Task and an opening quote. */
  const ConfirmPrefix: string := "Task \""

  /** Confirmation printed after an add: names the new task's description. */
  function AddedMessage(description: string): (m: string)
    ensures |m| == |ConfirmPrefix| + |description| + |"\" added."|
    ensures m[..|ConfirmPrefix|] == ConfirmPrefix
    ensures m[|ConfirmPrefix|..|ConfirmPrefix| + |description|] == description
    ensures m[|ConfirmPrefix| + |description|..] == "\" added."
  {
    Confirmation(description, "\" added.")
  }

  /** Confirmation printed after a remove: names the removed description. */
  function RemovedMessage(description: string): (m: string)
    ensures |m| == |ConfirmPrefix| + |description| + |"\" removed."|
    ensures m[..|ConfirmPrefix|] == ConfirmPrefix
    ensures m[|ConfirmPrefix|..|ConfirmPrefix| + |description|] == description
    ensures m[|ConfirmPrefix| + |description|..] == "\" removed."
  {
    Confirmation(description, "\" removed.")
  }

  /** Confirmation printed after a mark: names the marked description. */
  function CompletedMessage(description: string): (m: string)
    ensures |m| == |ConfirmPrefix| + |description| + |"\" marked as completed."|
    ensures m[..|ConfirmPrefix|] == ConfirmPrefix
    ensures m[|ConfirmPrefix|..|ConfirmPrefix| + |description|] == description
    ensures m[|ConfirmPrefix| + |description|..] == "\" marked as completed."
  {
    Confirmation(description, "\" marked as completed.")
  }

  /** The quoted description between the fixed opening and `closing`. */
  function Confirmation(description: string, closing: string): (m: string)
    ensures |m| == |ConfirmPrefix| + |description| + |closing|
    ensures m[..|ConfirmPrefix|] == ConfirmPrefix
    ensures m[|ConfirmPrefix|..|ConfirmPrefix| + |description|] == description
    ensures m[|ConfirmPrefix| + |description|..] == closing
  {
    var m := ConfirmPrefix + description + closing;
    assert m == ConfirmPrefix + (description + closing);
    m
  }

  class ToDoList {
    /** The tasks in insertion order; position 0 is shown as number 1. */
    var tasks: seq<Task>
    /** What the saved task file currently holds. */
    var storage: Storage
    /** The warning the start-up load reported, if any. */
    var startupWarning: Option<string>

    /** The file holds exactly the list in memory. */
    ghost predicate Synced()
      reads this
    {
      storage == Stored(tasks)
    }

    /** Starts with an empty list and loads whatever `disk` holds over it,
        keeping the warning that load reports. */
    constructor (disk: Storage)
      ensures storage == disk
      ensures Loaded(tasks, startupWarning) == Load(disk, [])
      ensures disk.Missing? || disk.Corrupt? ==> tasks == []
      ensures startupWarning.Some? <==> disk.Corrupt?
    {
      tasks := [];
      storage := disk;
      startupWarning := None;
      new;
      startupWarning := LoadTasks();
    }

    /** Reads the saved file into the list; returns the warning reported
        when the file cannot be decoded. The file itself is not touched. */
    method LoadTasks() returns (warning: Option<string>)
      modifies this`tasks
      ensures Loaded(tasks, warning) == Load(storage, old(tasks))
      ensures storage.Stored? ==> Synced()
    {
      match storage
      case Missing =>
        warning := None;
      case Corrupt =>
        warning := Some(LoadWarning);
        tasks := [];
      case Stored(saved) =>
        warning := None;
        tasks := saved;
    }

    /** Overwrites the saved file with the whole list. */
    method SaveTasks()
      modifies this`storage
      ensures storage == Stored(tasks)
      ensures Load(storage, []) == Loaded(tasks, None)
    {
      storage := Stored(tasks);
    }

    /** Appends a new, not yet completed task and saves. Priority defaults
        to "medium" and the due date to none. */
    method AddTask(task: string, priority: string := DefaultPriority, dueDate: Option<string> := None)
      returns (message: string)
      modifies this`tasks, this`storage
      ensures tasks == Appended(old(tasks), NewTask(task, priority, dueDate))
      ensures Synced()
      ensures message == AddedMessage(task)
    {
      tasks := tasks + [NewTask(task, priority, dueDate)];
      SaveTasks();
      message := AddedMessage(task);
    }

    /** Removes the task at 0-based `index` and saves; an index outside the
        list, negative ones included, changes nothing and is reported. */
    method RemoveTask(index: int) returns (message: string)
      modifies this`tasks, this`storage
      ensures ValidIndex(old(tasks), index) ==>
                tasks == RemovedAt(old(tasks), index) && Synced() &&
                message == RemovedMessage(old(tasks)[index].task)
      ensures !ValidIndex(old(tasks), index) ==>
                tasks == old(tasks) && storage == old(storage) && message == InvalidIndexMessage
    {
      if 0 <= index < |tasks| {
        var removed := tasks[index];
        tasks := tasks[..index] + tasks[index + 1..];
        SaveTasks();
        message := RemovedMessage(removed.task);
      } else {
        message := InvalidIndexMessage;
      }
    }

    /** Marks the task at 0-based `index` completed and saves; an index
        outside the list changes nothing and is reported. */
    method MarkCompleted(index: int) returns (message: string)
      modifies this`tasks, this`storage
      ensures ValidIndex(old(tasks), index) ==>
                tasks == CompletedAt(old(tasks), index) && Synced() &&
                message == CompletedMessage(old(tasks)[index].task)
      ensures !ValidIndex(old(tasks), index) ==>
                tasks == old(tasks) && storage == old(storage) && message == InvalidIndexMessage
    {
      if 0 <= index < |tasks| {
        tasks := tasks[index := tasks[index].(completed := true)];
        SaveTasks();
        message := CompletedMessage(tasks[index].task);
      } else {
        message := InvalidIndexMessage;
      }
    }

    /** The lines the list view shows, built one task at a time. */
    method DisplayTasks() returns (lines: seq<string>)
      ensures lines == Display(tasks)
      ensures tasks == [] ==> lines == [NoTasksMessage]
      ensures tasks != [] ==> |lines| == |tasks|
    {
      if tasks == [] {
        lines := [NoTasksMessage];
      } else {
        lines := [];
        var i := 0;
        while i < |tasks|
          invariant 0 <= i <= |tasks|
          invariant |lines| == i
          invariant forall k :: 0 <= k < i ==> lines[k] == TaskLine(k + 1, tasks[k])
        {
          lines := lines + [TaskLine(i + 1, tasks[i])];
          i := i + 1;
        }
      }
    }
  }

  /** The list view after add, mark and remove on an initially empty store:
      the new task is shown pending, then completed, then the store is
      empty again. Out-of-range removes are refused, and the file ends up
      holding the empty list. */
  method AddMarkRemoveScenario()
    returns (first: seq<string>, second: seq<string>, third: seq<string>,
             refusals: seq<string>, saved: Storage)
    ensures first == ["1" + ". " + "Buy milk"
                      + (" - Priority: " + "high" + ", Status: " + "Pending" + ", Due Date: " + "2025-01-01")]
    ensures second == ["1" + ". " + "Buy milk"
                       + (" - Priority: " + "high" + ", Status: " + "Completed" + ", Due Date: " + "2025-01-01")]
    ensures third == [NoTasksMessage]
    ensures refusals == [InvalidIndexMessage, InvalidIndexMessage]
    ensures saved == Stored([])
  {
    var store := new ToDoList(Missing);
    var m := store.AddTask("Buy milk", "high", Some("2025-01-01"));
    first := store.DisplayTasks();
    assert NatToString(1) == "1";
    m := store.MarkCompleted(0);
    m := store.MarkCompleted(0);
    second := store.DisplayTasks();
    var tooHigh := store.RemoveTask(1);
    var negative := store.RemoveTask(-1);
    refusals := [tooHigh, negative];
    m := store.RemoveTask(0);
    third := store.DisplayTasks();
    saved := store.storage;
  }

  /** A corrupt file loads at start-up as an empty list with the warning;
      one add then saves a file holding just that task, with the default
      priority. */
  method CorruptRecoveryScenario() returns (warning: Option<string>, saved: Storage)
    ensures warning == Some(LoadWarning)
    ensures saved == Stored([Task("Call home", "medium", None, false)])
  {
    var store := new ToDoList(Corrupt);
    warning := store.startupWarning;
    var m := store.AddTask("Call home");
    saved := store.storage;
  }
}
