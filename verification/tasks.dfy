/** Task records, the edits the task store makes to its ordered list of
    them, and the abstract contents of the file the list is saved to. */
module Tasks {

  datatype Option<T> = None | Some(value: T)

  /** One to-do item: description, free-text priority, optional due date
      (kept as the text it is stored and shown as) and the completed flag. */
  datatype Task = Task(task: string, priority: string, dueDate: Option<string>, completed: bool)

  /** Priority used when the caller gives none. */
  const DefaultPriority: string := "medium"

  /** Reply to a remove or a mark request whose index is out of range. */
  const InvalidIndexMessage: string := "Invalid task index."

  /** Warning reported when the saved file exists but cannot be decoded. */
  const LoadWarning: string := "Error: Unable to load tasks. File may be empty or corrupted."

  /** The record a new task starts as: not completed, fields as given. */
  function NewTask(description: string, priority: string, dueDate: Option<string>): (t: Task)
    ensures !t.completed
    ensures t.task == description && t.priority == priority && t.dueDate == dueDate
  {
    Task(description, priority, dueDate, false)
  }

  /** The guard shared by remove and mark-completed: a 0-based position
      inside the list. Negative positions are rejected, never wrapped. */
  predicate ValidIndex(tasks: seq<Task>, index: int)
  {
    0 <= index < |tasks|
  }

  /** The list after a new task is appended at the end. */
  function Appended(tasks: seq<Task>, t: Task): (r: seq<Task>)
    ensures |r| == |tasks| + 1
    ensures r[|tasks|] == t
    ensures forall k :: 0 <= k < |tasks| ==> r[k] == tasks[k]
  {
    tasks + [t]
  }

  /** The list after the task at `index` is removed; later tasks shift
      down by one and nothing else moves. */
  function RemovedAt(tasks: seq<Task>, index: int): (r: seq<Task>)
    requires ValidIndex(tasks, index)
    ensures |r| == |tasks| - 1
    ensures forall k :: 0 <= k < index ==> r[k] == tasks[k]
    ensures forall k :: index <= k < |r| ==> r[k] == tasks[k + 1]
    ensures multiset(r) + multiset{tasks[index]} == multiset(tasks)
  {
    assert tasks == tasks[..index] + [tasks[index]] + tasks[index + 1..];
    tasks[..index] + tasks[index + 1..]
  }

  /** The list after the task at `index` is marked completed; every other
      task, and every other field of that task, is as before. */
  function CompletedAt(tasks: seq<Task>, index: int): (r: seq<Task>)
    requires ValidIndex(tasks, index)
    ensures |r| == |tasks|
    ensures r[index].completed
    ensures r[index].task == tasks[index].task && r[index].priority == tasks[index].priority
    ensures r[index].dueDate == tasks[index].dueDate
    ensures forall k :: 0 <= k < |tasks| && k != index ==> r[k] == tasks[k]
  {
    tasks[index := tasks[index].(completed := true)]
  }

  /** Marking the same position twice leaves the list as marking it once. */
  lemma CompletedAtIdempotent(tasks: seq<Task>, index: int)
    requires ValidIndex(tasks, index)
    ensures ValidIndex(CompletedAt(tasks, index), index)
    ensures CompletedAt(CompletedAt(tasks, index), index) == CompletedAt(tasks, index)
  {
  }

  /** Removing a position sends every other task to a position whose
      relative order with the rest is unchanged: positions before `index`
      stay, positions after it move down by one. */
  lemma RemovedAtKeepsOrder(tasks: seq<Task>, index: int, a: int, b: int)
    requires ValidIndex(tasks, index)
    requires 0 <= a < b < |tasks| && a != index && b != index
    ensures var r := RemovedAt(tasks, index);
            var a', b' := (if a < index then a else a - 1), (if b < index then b else b - 1);
            0 <= a' < b' < |r| && r[a'] == tasks[a] && r[b'] == tasks[b]
  {
  }

  /** What the saved task file holds: no file at all, a file that is not
      valid JSON (an empty file included), or a decoded list of tasks. */
  datatype Storage = Missing | Corrupt | Stored(saved: seq<Task>)

  /** The outcome of loading: the resulting list and the warning, if any. */
  datatype Loaded = Loaded(tasks: seq<Task>, warning: Option<string>)

  /** Loading over the list `current`: a missing file leaves the list as it
      is, an undecodable one gives the empty list and a warning, a decoded
      one replaces the list. Loading never fails. */
  function Load(disk: Storage, current: seq<Task>): (r: Loaded)
    ensures r.warning.Some? <==> disk.Corrupt?
    ensures r.warning.Some? ==> r.warning.value == LoadWarning && r.tasks == []
    ensures disk.Missing? ==> r.tasks == current
    ensures disk.Stored? ==> r.tasks == disk.saved
  {
    match disk
    case Missing => Loaded(current, None)
    case Corrupt => Loaded([], Some(LoadWarning))
    case Stored(saved) => Loaded(saved, None)
  }

  /** Round trip: what was saved loads back unchanged and without warning,
      whatever list was in memory before the load. */
  lemma LoadAfterSave(tasks: seq<Task>, current: seq<Task>)
    ensures Load(Stored(tasks), current) == Loaded(tasks, None)
  {
  }
}
