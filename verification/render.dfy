/** The text the task store shows for its list: one numbered line per
    task, or a fixed message when there are none. */
module Render {
  import opened Tasks

  /** Shown instead of any line when the list is empty. */
  const NoTasksMessage: string := "No tasks found."

  /** Shown in place of a due date that is absent or empty. */
  const NoDueDate: string := "No due date"

  predicate IsDigit(c: char)
  {
    '0' <= c <= '9'
  }

  function DigitChar(d: nat): (c: char)
    requires d < 10
    ensures IsDigit(c)
  {
    ('0' as int + d) as char
  }

  function DigitValue(c: char): nat
    requires IsDigit(c)
  {
    c as int - '0' as int
  }

  /** Decimal text of a natural number, as Python writes an int: digits
      only, most significant first, no leading zero. */
  function NatToString(n: nat): (s: string)
    ensures |s| >= 1
    ensures forall k :: 0 <= k < |s| ==> IsDigit(s[k])
    ensures n > 0 ==> s[0] != '0'
    decreases n
  {
    if n < 10 then [DigitChar(n)] else NatToString(n / 10) + [DigitChar(n % 10)]
  }

  /** Value of a string of decimal digits, most significant first. */
  function ParseDigits(s: string): nat
    requires forall k :: 0 <= k < |s| ==> IsDigit(s[k])
  {
    if s == [] then 0 else ParseDigits(s[..|s| - 1]) * 10 + DigitValue(s[|s| - 1])
  }

  /** The number written by NatToString reads back as the same number. */
  lemma {:induction false} NatToStringRoundTrip(n: nat)
    ensures ParseDigits(NatToString(n)) == n
    decreases n
  {
    var s := NatToString(n);
    if n >= 10 {
      NatToStringRoundTrip(n / 10);
      assert s[..|s| - 1] == NatToString(n / 10);
    }
  }

  /** Status label: "Completed" exactly when the task is completed. */
  function StatusLabel(completed: bool): (r: string)
    ensures r == "Completed" <==> completed
    ensures r == "Pending" <==> !completed
  {
    if completed then "Completed" else "Pending"
  }

  /** Due-date field: the stored date when there is a non-empty one (an
      empty text is falsy and counts as absent), else the placeholder. */
  function DueLabel(dueDate: Option<string>): (r: string)
    ensures dueDate.Some? && dueDate.value != [] ==> r == dueDate.value
    ensures dueDate.None? || dueDate.value == [] ==> r == NoDueDate
    ensures r != []
  {
    if dueDate.Some? && dueDate.value != [] then dueDate.value else NoDueDate
  }

  /** The line for the task shown at 1-based position `number`. */
  function TaskLine(number: nat, t: Task): string
  {
    NatToString(number) + ". " + t.task + FieldsText(t)
  }

  /** A task's line is its number, ". ", its description, then exactly the
      labelled fields, with nothing before, between or after. */
  lemma TaskLineFormat(number: nat, t: Task)
    ensures var head := NatToString(number) + ". " + t.task;
            var line := TaskLine(number, t);
            |line| == |head| + |FieldsText(t)| && line[..|head|] == head && line[|head|..] == FieldsText(t)
  {
  }

  /** The rest of a task's line, after its number and description. */
  function FieldsText(t: Task): string
  {
    " - Priority: " + t.priority + ", Status: " + StatusLabel(t.completed)
      + ", Due Date: " + DueLabel(t.dueDate)
  }

  /** The fields text gives the priority, the status label and the due-date
      field, each behind its caption, in that order, the due date last. */
  lemma FieldsTextFormat(t: Task)
    ensures var lead := " - Priority: " + t.priority + ", Status: ";
            var status := StatusLabel(t.completed);
            var due := DueLabel(t.dueDate);
            var r := FieldsText(t);
            |r| == |lead| + |status| + |", Due Date: "| + |due| &&
            r[..|lead|] == lead &&
            r[|lead|..|lead| + |status|] == status &&
            r[|lead| + |status|..|r| - |due|] == ", Due Date: " &&
            r[|r| - |due|..] == due
  {
  }

  /** A line starts with its number in decimal followed by ". " and the
      description, and that number reads back from the line. */
  lemma TaskLineNumbered(number: nat, t: Task)
    ensures var digits := NatToString(number);
            var line := TaskLine(number, t);
            |digits| + 2 + |t.task| <= |line| &&
            line[..|digits| + 2 + |t.task|] == digits + ". " + t.task &&
            ParseDigits(line[..|digits|]) == number
  {
    var digits := NatToString(number);
    var head := digits + ". " + t.task;
    var line := TaskLine(number, t);
    TaskLineFormat(number, t);
    assert head[..|digits|] == digits;
    assert line[..|digits|] == head[..|digits|];
    NatToStringRoundTrip(number);
  }

  /** Lines for `tasks`, numbering the first one `first`. */
  function Lines(tasks: seq<Task>, first: nat): (lines: seq<string>)
    ensures |lines| == |tasks|
    ensures forall k :: 0 <= k < |tasks| ==> lines[k] == TaskLine(first + k, tasks[k])
    decreases |tasks|
  {
    if tasks == [] then [] else [TaskLine(first, tasks[0])] + Lines(tasks[1..], first + 1)
  }

  /** What the list view shows: the fixed message for an empty list, else
      one line per task in list order, numbered from 1. */
  function Display(tasks: seq<Task>): (lines: seq<string>)
    ensures tasks == [] ==> lines == [NoTasksMessage]
    ensures tasks != [] ==> |lines| == |tasks|
    ensures tasks != [] ==> forall k :: 0 <= k < |tasks| ==> lines[k] == TaskLine(k + 1, tasks[k])
  {
    if tasks == [] then [NoTasksMessage] else Lines(tasks, 1)
  }

  /** After marking position `index`, its line shows the task as
      completed and every other line is shown as before. */
  lemma DisplayAfterComplete(tasks: seq<Task>, index: int)
    requires ValidIndex(tasks, index)
    ensures var after := Display(CompletedAt(tasks, index));
            |after| == |tasks| &&
            after[index] == TaskLine(index + 1, tasks[index].(completed := true)) &&
            forall k :: 0 <= k < |tasks| && k != index ==> after[k] == Display(tasks)[k]
  {
  }

  /** After removing position `index`, an emptied list shows the fixed
      message; otherwise earlier lines are unchanged and each later task is
      shown one place up, renumbered. */
  lemma DisplayAfterRemove(tasks: seq<Task>, index: int)
    requires ValidIndex(tasks, index)
    ensures var after := Display(RemovedAt(tasks, index));
            (|tasks| == 1 ==> after == [NoTasksMessage]) &&
            (|tasks| > 1 ==>
               |after| == |tasks| - 1 &&
               (forall k :: 0 <= k < index ==> after[k] == Display(tasks)[k]) &&
               (forall k :: index <= k < |after| ==> after[k] == TaskLine(k + 1, tasks[k + 1])))
  {
  }

  /** After an append to a non-empty list the old lines stay and one line for the new task,
      numbered one past the old length, follows them. */
  lemma DisplayAfterAppend(tasks: seq<Task>, t: Task)
    ensures var after := Display(Appended(tasks, t));
            |after| == |tasks| + 1 &&
            after[|tasks|] == TaskLine(|tasks| + 1, t) &&
            (tasks != [] ==> after[..|tasks|] == Display(tasks))
  {
  }
}
