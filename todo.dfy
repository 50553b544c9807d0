/** The command processor: the loaded task collection as an object whose
    commands update it in place. */
module Todo {
  import opened Options
  import opened Priorities
  import opened Tasks

  class TodoList {
    /** The collection, in insertion order (which is also file order). */
    var tasks: seq<Task>

    /** Loading at start-up: a missing or unparsable store gives the empty
        collection, otherwise the stored tasks in stored order. */
    constructor (stored: StoredFile)
      ensures stored.Stored? ==> tasks == stored.tasks
      ensures !stored.Stored? ==> tasks == []
    {
      match stored
      case Stored(ts) => tasks := ts;
      case _ => tasks := [];
    }

    /** `add`: append a task with id `len + 1`, not done, with the parsed
        priority and the given due date or else `today`. Returns whether
        the priority text drew the "defaulting to Medium" warning. */
    method Add(description: string, priorityText: string, dueDate: Option<string>, today: string)
      returns (warned: bool)
      modifies this
      ensures tasks == old(tasks) + [NewTask(old(tasks), description, priorityText, dueDate, today)]
      ensures warned == !IsPriorityWord(priorityText)
    {
      var id := |tasks| + 1;
      var priority := ParsePriority(priorityText);
      warned := !IsPriorityWord(priorityText);
      var due := match dueDate case Some(d) => d case None => today;
      tasks := tasks + [Task(id, description, false, priority, due)];
    }

    /** The first position whose task has the given id, searched front to
        back. */
    method Position(id: nat) returns (pos: Option<nat>)
      ensures pos.Some? ==> pos.value < |tasks| && tasks[pos.value].id == id
      ensures pos.Some? ==> forall j :: 0 <= j < pos.value ==> tasks[j].id != id
      ensures pos.None? ==> forall j :: 0 <= j < |tasks| ==> tasks[j].id != id
      ensures pos == FindIndex(tasks, id)
    {
      var i := 0;
      while i < |tasks|
        invariant 0 <= i <= |tasks|
        invariant forall j :: 0 <= j < i ==> tasks[j].id != id
      {
        if tasks[i].id == id {
          return Some(i);
        }
        i := i + 1;
      }
      return None;
    }

    /** `done`: set the flag of the first task with the id, if any. */
    method MarkDone(id: nat) returns (found: bool)
      modifies this
      ensures found == FindIndex(old(tasks), id).Some?
      ensures tasks == WithDone(old(tasks), id)
    {
      var pos := Position(id);
      match pos
      case Some(i) =>
        tasks := tasks[i := tasks[i].(done := true)];
        found := true;
      case None =>
        found := false;
    }

    /** `remove`: delete the first task with the id, if any. */
    method Remove(id: nat) returns (found: bool)
      modifies this
      ensures found == FindIndex(old(tasks), id).Some?
      ensures tasks == Without(old(tasks), id)
    {
      var pos := Position(id);
      match pos
      case Some(i) =>
        tasks := tasks[..i] + tasks[i + 1..];
        found := true;
      case None =>
        found := false;
    }

    /** `list`: "no tasks" on an empty collection; otherwise the tasks the
        status filter lets through, in stored order. */
    method List(status: Option<string>) returns (out: Outcome)
      ensures tasks == [] ==> out == NoTasks
      ensures tasks != [] ==> out.Listed?
      ensures tasks != [] ==> |out.shown| <= |tasks| && forall k :: 0 <= k < |out.shown| ==> Shows(status, out.shown[k])
      ensures tasks != [] ==> out.shown == Filtered(tasks, status)
    {
      if tasks == [] {
        return NoTasks;
      }
      var shown: seq<Task> := [];
      for i := 0 to |tasks|
        invariant shown == Filtered(tasks[..i], status)
      {
        var task := tasks[i];
        assert tasks[..i + 1][..i] == tasks[..i];
        if status.Some? {
          var filter := status.value;
          if (filter == "done" && !task.done) || (filter == "pending" && task.done) {
            continue;
          }
        }
        shown := shown + [task];
      }
      assert tasks[..|tasks|] == tasks;
      return Listed(shown);
    }

    /** One invocation of the tool on the loaded collection. */
    method Execute(cmd: Command, today: string) returns (out: Outcome)
      modifies this
      ensures (tasks, out) == Step(old(tasks), cmd, today)
    {
      match cmd
      case Add(description, priorityText, dueDate) =>
        var warned := Add(description, priorityText, dueDate, today);
        out := Added(warned);
      case List(status) =>
        out := List(status);
      case Done(id) =>
        var found := MarkDone(id);
        out := if found then MarkedDone else NotFound;
      case Remove(id) =>
        var found := Remove(id);
        out := if found then Removed else NotFound;
    }
  }
}
