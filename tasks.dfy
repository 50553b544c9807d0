/** The task record, the ordered task collection and the effect of one
    command of the to-do tool on that collection, as pure functions. */
module Tasks {
  import opened Options
  import opened Priorities

  /** One to-do item. `id` is assigned at creation; `dueDate` is text in
      the form YYYY-MM-DD. */
  datatype Task = Task(id: nat, description: string, done: bool, priority: Priority, dueDate: string)

  /** What the store file held when the tool started. */
  datatype StoredFile = Missing | Unparsable | Stored(tasks: seq<Task>)

  /** The four commands of the command line. */
  datatype Command =
    | Add(description: string, priorityText: string, dueDate: Option<string>)
    | List(status: Option<string>)
    | Done(id: nat)
    | Remove(id: nat)

  /** The outcome a command reports. */
  datatype Outcome =
    | Added(warned: bool)       // `warned`: the priority text was not recognised
    | NoTasks                   // `list` on an empty collection
    | Listed(shown: seq<Task>)  // `list`: the lines printed, in order
    | MarkedDone
    | Removed
    | NotFound
  {
    /** The outcomes after which the collection is written back. */
    predicate Saves()
    {
      Added? || MarkedDone? || Removed?
    }
  }

  /** One invocation of the tool: a command and the local date it runs on. */
  datatype Invocation = Invocation(cmd: Command, today: string)

  /** The position of the first task with the given id, if there is one. */
  function FindIndex(ts: seq<Task>, id: nat): (r: Option<nat>)
    ensures r.Some? ==> r.value < |ts| && ts[r.value].id == id
    ensures r.Some? ==> forall j :: 0 <= j < r.value ==> ts[j].id != id
    ensures r.None? ==> forall j :: 0 <= j < |ts| ==> ts[j].id != id
  {
    if ts == [] then None
    else if ts[0].id == id then Some(0)
    else match FindIndex(ts[1..], id)
      case None => None
      case Some(k) => Some(k + 1)
  }

  /** The task `add` creates: the next id is the current length plus one. */
  function NewTask(ts: seq<Task>, description: string, priorityText: string,
                   dueDate: Option<string>, today: string): Task
  {
    Task(|ts| + 1, description, false, ParsePriority(priorityText), dueDate.GetOr(today))
  }

  /** The collection after `done id`. */
  function WithDone(ts: seq<Task>, id: nat): (r: seq<Task>)
    ensures |r| == |ts|
    ensures forall j :: 0 <= j < |ts| ==> r[j].id == ts[j].id
  {
    match FindIndex(ts, id)
    case None => ts
    case Some(i) => ts[i := ts[i].(done := true)]
  }

  /** The collection after `remove id`. */
  function Without(ts: seq<Task>, id: nat): (r: seq<Task>)
    ensures |r| == if FindIndex(ts, id).Some? then |ts| - 1 else |ts|
  {
    match FindIndex(ts, id)
    case None => ts
    case Some(i) => ts[..i] + ts[i + 1..]
  }

  /** Whether `list` prints a task under the given status filter: "done"
      hides pending tasks, "pending" hides done ones, anything else hides
      nothing. */
  predicate Shows(status: Option<string>, t: Task)
  {
    match status
    case None => true
    case Some(filter) => !((filter == "done" && !t.done) || (filter == "pending" && t.done))
  }

  /** The tasks `list` prints, in stored order. */
  function Filtered(ts: seq<Task>, status: Option<string>): (r: seq<Task>)
    ensures |r| <= |ts|
    ensures forall k :: 0 <= k < |r| ==> Shows(status, r[k])
    decreases |ts|
  {
    if ts == [] then []
    else
      var last := ts[|ts| - 1];
      Filtered(ts[..|ts| - 1], status) + (if Shows(status, last) then [last] else [])
  }

  /** One invocation: the new collection and the reported outcome. Only the
      outcomes that save can change the collection; a search by id reports
      NotFound exactly when no task has that id, and MarkedDone or Removed
      when one has; `add` reports whether the priority text warned. */
  function Step(ts: seq<Task>, cmd: Command, today: string): (r: (seq<Task>, Outcome))
    ensures !r.1.Saves() ==> r.0 == ts
    ensures r.1.NotFound? <==> (cmd.Done? || cmd.Remove?) && FindIndex(ts, cmd.id).None?
    ensures cmd.Add? ==> r.1 == Added(!IsPriorityWord(cmd.priorityText))
    ensures cmd.List? ==> r.1 == if ts == [] then NoTasks else Listed(Filtered(ts, cmd.status))
    ensures cmd.Done? && FindIndex(ts, cmd.id).Some? ==> r.1 == MarkedDone
    ensures cmd.Remove? && FindIndex(ts, cmd.id).Some? ==> r.1 == Removed
  {
    match cmd
    case Add(description, priorityText, dueDate) =>
      (ts + [NewTask(ts, description, priorityText, dueDate, today)], Added(!IsPriorityWord(priorityText)))
    case List(status) =>
      (ts, if ts == [] then NoTasks else Listed(Filtered(ts, status)))
    case Done(id) =>
      if FindIndex(ts, id).Some? then (WithDone(ts, id), MarkedDone) else (ts, NotFound)
    case Remove(id) =>
      if FindIndex(ts, id).Some? then (Without(ts, id), Removed) else (ts, NotFound)
  }

  /** The collection after a series of invocations, each starting from the
      collection the previous one saved. */
  function Run(ts: seq<Task>, invs: seq<Invocation>): seq<Task>
    decreases |invs|
  {
    if invs == [] then ts
    else
      var last := invs[|invs| - 1];
      Step(Run(ts, invs[..|invs| - 1]), last.cmd, last.today).0
  }

  // ---------------------------------------------------------------------
  // add

  /** `add` appends exactly one task and leaves the others as they were;
      the new task has the next id, is not done, carries the parsed
      priority, and keeps a supplied due date verbatim, using `today` only
      when none was supplied. */
  lemma AddAppends(ts: seq<Task>, description: string, priorityText: string,
                   dueDate: Option<string>, today: string)
    ensures var r := Step(ts, Add(description, priorityText, dueDate), today).0;
      && |r| == |ts| + 1
      && r[..|ts|] == ts
      && r[|ts|].id == |ts| + 1
      && r[|ts|].description == description
      && !r[|ts|].done
      && r[|ts|].priority == ParsePriority(priorityText)
      && (dueDate.Some? ==> r[|ts|].dueDate == dueDate.value)
      && (dueDate.None? ==> r[|ts|].dueDate == today)
  {
  }

  /** Starting from an empty collection, successive `add`s number the tasks
      1, 2, ..., N in insertion order, whatever their descriptions. */
  lemma {:induction false} AddsNumberFromOne(invs: seq<Invocation>)
    requires forall k :: 0 <= k < |invs| ==> invs[k].cmd.Add?
    ensures |Run([], invs)| == |invs|
    ensures forall k :: 0 <= k < |invs| ==>
      Run([], invs)[k].id == k + 1 && Run([], invs)[k].description == invs[k].cmd.description
  {
    if invs != [] {
      var init := invs[..|invs| - 1];
      var last := invs[|invs| - 1];
      AddsNumberFromOne(init);
      var before := Run([], init);
      assert Run([], invs) == before + [NewTask(before, last.cmd.description, last.cmd.priorityText, last.cmd.dueDate, last.today)];
      forall k | 0 <= k < |invs|
        ensures Run([], invs)[k].id == k + 1 && Run([], invs)[k].description == invs[k].cmd.description
      {
        if k < |init| {
          assert invs[k] == init[k];
        }
      }
    }
  }

  // ---------------------------------------------------------------------
  // done

  /** `done` on a present id sets the flag of the first task with that id;
      every other task, and every other field of that task, is unchanged. */
  lemma MarkDoneSetsFirst(ts: seq<Task>, id: nat, i: nat, today: string)
    requires i < |ts| && ts[i].id == id
    requires forall j :: 0 <= j < i ==> ts[j].id != id
    ensures var r := Step(ts, Done(id), today).0;
      && |r| == |ts|
      && r[i] == Task(ts[i].id, ts[i].description, true, ts[i].priority, ts[i].dueDate)
      && forall j :: 0 <= j < |ts| && j != i ==> r[j] == ts[j]
  {
  }

  /** Marking the same id twice gives the collection that marking it once
      gives, and it is reported as done both times. */
  lemma MarkDoneIdempotent(ts: seq<Task>, id: nat, today: string)
    ensures var (once, out1) := Step(ts, Done(id), today);
      var (twice, out2) := Step(once, Done(id), today);
      twice == once && out2 == out1
  {
  }

  // ---------------------------------------------------------------------
  // remove

  /** `remove` on a present id deletes the first task with that id: the
      length drops by one, the tasks before it stay where they were, the
      tasks after it move up by one, and no other task is lost. */
  lemma RemoveDeletesFirst(ts: seq<Task>, id: nat, i: nat, today: string)
    requires i < |ts| && ts[i].id == id
    requires forall j :: 0 <= j < i ==> ts[j].id != id
    ensures var r := Step(ts, Remove(id), today).0;
      && |r| == |ts| - 1
      && (forall j :: 0 <= j < i ==> r[j] == ts[j])
      && (forall j :: i <= j < |r| ==> r[j] == ts[j + 1])
      && multiset(r) + multiset{ts[i]} == multiset(ts)
  {
    assert FindIndex(ts, id) == Some(i);
    assert ts == ts[..i] + [ts[i]] + ts[i + 1..];
    assert multiset(ts) == multiset(ts[..i]) + multiset{ts[i]} + multiset(ts[i + 1..]);
  }

  /** `done` and `remove` with an id no task has leave the collection as it
      was and report NotFound. */
  lemma MissingIdUnchanged(ts: seq<Task>, id: nat, today: string)
    requires forall j :: 0 <= j < |ts| ==> ts[j].id != id
    ensures Step(ts, Done(id), today) == (ts, NotFound)
    ensures Step(ts, Remove(id), today) == (ts, NotFound)
  {
  }

  /** The ids are not kept unique: after a removal the length-based next id
      can repeat one still present (add, add, remove 1, add gives two tasks
      numbered 2). */
  lemma IdsCanCollide(today: string)
    ensures var invs := [Invocation(Add("a", "low", None), today),
                         Invocation(Add("b", "low", None), today),
                         Invocation(Remove(1), today),
                         Invocation(Add("c", "low", None), today)];
      var r := Run([], invs);
      |r| == 2 && r[0].id == 2 && r[1].id == 2
  {
    var invs := [Invocation(Add("a", "low", None), today),
                 Invocation(Add("b", "low", None), today),
                 Invocation(Remove(1), today),
                 Invocation(Add("c", "low", None), today)];
    var s1 := [NewTask([], "a", "low", None, today)];
    var s2 := s1 + [NewTask(s1, "b", "low", None, today)];
    var s3 := s2[1..];
    assert invs[..0] == [] && invs[..1][..0] == [];
    assert Run([], invs[..1]) == s1;
    assert invs[..2][..1] == invs[..1];
    assert Run([], invs[..2]) == s2;
    assert invs[..3][..2] == invs[..2];
    assert FindIndex(s2, 1) == Some(0);
    assert Run([], invs[..3]) == s3;
    assert invs[..3] == invs[..|invs| - 1];
    assert Run([], invs) == s3 + [NewTask(s3, "c", "low", None, today)];
  }

  // ---------------------------------------------------------------------
  // list

  /** Filtering distributes over concatenation: the stored order is kept. */
  lemma {:induction false} FilteredConcat(a: seq<Task>, b: seq<Task>, status: Option<string>)
    ensures Filtered(a + b, status) == Filtered(a, status) + Filtered(b, status)
    decreases |b|
  {
    if b == [] {
      assert a + b == a;
    } else {
      var init := b[..|b| - 1];
      var last := b[|b| - 1];
      FilteredConcat(a, init, status);
      assert (a + b)[..|a + b| - 1] == a + init;
      assert (a + b)[|a + b| - 1] == last;
    }
  }

  /** Every task the filter shows is kept as often as it is stored, and
      every task it hides is dropped. */
  lemma {:induction false} FilteredCounts(ts: seq<Task>, status: Option<string>)
    ensures forall t :: multiset(Filtered(ts, status))[t] == if Shows(status, t) then multiset(ts)[t] else 0
    decreases |ts|
  {
    if ts != [] {
      var init := ts[..|ts| - 1];
      var last := ts[|ts| - 1];
      FilteredCounts(init, status);
      assert ts == init + [last];
      assert multiset(ts) == multiset(init) + multiset{last};
    }
  }

  /** `list --status done` shows exactly the done tasks, in stored order. */
  lemma FilterDone(ts: seq<Task>)
    ensures forall k :: 0 <= k < |Filtered(ts, Some("done"))| ==> Filtered(ts, Some("done"))[k].done
    ensures forall t :: multiset(Filtered(ts, Some("done")))[t] == if t.done then multiset(ts)[t] else 0
  {
    FilteredCounts(ts, Some("done"));
  }

  /** `list --status pending` shows exactly the tasks not done, in stored
      order. */
  lemma FilterPending(ts: seq<Task>)
    ensures forall k :: 0 <= k < |Filtered(ts, Some("pending"))| ==> !Filtered(ts, Some("pending"))[k].done
    ensures forall t :: multiset(Filtered(ts, Some("pending")))[t] == if t.done then 0 else multiset(ts)[t]
  {
    FilteredCounts(ts, Some("pending"));
  }

  /** Without a filter, or with any value other than "done" and "pending",
      `list` shows the whole collection. */
  lemma {:induction false} FilterOtherShowsAll(ts: seq<Task>, status: Option<string>)
    requires status != Some("done") && status != Some("pending")
    ensures Filtered(ts, status) == ts
    decreases |ts|
  {
    if ts != [] {
      FilterOtherShowsAll(ts[..|ts| - 1], status);
      assert ts == ts[..|ts| - 1] + [ts[|ts| - 1]];
    }
  }

  /** The "done" and "pending" listings split the collection between them. */
  lemma DonePendingPartition(ts: seq<Task>)
    ensures |Filtered(ts, Some("done"))| + |Filtered(ts, Some("pending"))| == |ts|
  {
  }

  // ---------------------------------------------------------------------
  // an example session

  /** A five-command session, each command a fresh invocation on the
      collection the previous one saved: `add "Buy milk" high`,
      `add "Call Bob" bogus 2030-01-01` (an unknown priority and an explicit
      date), `done 1`, `list --status pending`, `remove 1`. */
  lemma ExampleSession(today: string)
    ensures var milk := Task(1, "Buy milk", false, High, today);
      var bob := Task(2, "Call Bob", false, Medium, "2030-01-01");
      var (s1, o1) := Step([], Add("Buy milk", "high", None), today);
      var (s2, o2) := Step(s1, Add("Call Bob", "bogus", Some("2030-01-01")), today);
      var (s3, o3) := Step(s2, Done(1), today);
      var (s4, o4) := Step(s3, List(Some("pending")), today);
      var (s5, o5) := Step(s4, Remove(1), today);
      && s1 == [milk] && o1 == Added(false)
      && s2 == [milk, bob] && o2 == Added(true)
      && s3 == [milk.(done := true), bob] && o3 == MarkedDone
      && o4 == Listed([bob])
      && s5 == [bob] && o5 == Removed
  {
    var milk := Task(1, "Buy milk", false, High, today);
    var bob := Task(2, "Call Bob", false, Medium, "2030-01-01");
    ExampleAdds(today, milk, bob);
    ExampleDoneListRemove(today, milk, bob);
  }

  /** The two `add`s of that session. */
  lemma ExampleAdds(today: string, milk: Task, bob: Task)
    requires milk == Task(1, "Buy milk", false, High, today)
    requires bob == Task(2, "Call Bob", false, Medium, "2030-01-01")
    ensures Step([], Add("Buy milk", "high", None), today) == ([milk], Added(false))
    ensures Step([milk], Add("Call Bob", "bogus", Some("2030-01-01")), today) == ([milk, bob], Added(true))
  {
    assert Lower("high") == "high";
    assert |Lower("bogus")| == 5;
    assert NewTask([], "Buy milk", "high", None, today) == milk;
    assert NewTask([milk], "Call Bob", "bogus", Some("2030-01-01"), today) == bob;
    assert Step([], Add("Buy milk", "high", None), today).0 == [milk];
    assert Step([], Add("Buy milk", "high", None), today).1 == Added(false);
    assert Step([milk], Add("Call Bob", "bogus", Some("2030-01-01")), today).0 == [milk, bob];
    assert Step([milk], Add("Call Bob", "bogus", Some("2030-01-01")), today).1 == Added(true);
  }

  /** `done 1`, `list --status pending` and `remove 1` of that session, on
      any two tasks numbered 1 and 2 that are not done. */
  lemma ExampleDoneListRemove(today: string, milk: Task, bob: Task)
    requires milk.id == 1 && !milk.done
    requires bob.id == 2 && !bob.done
    ensures Step([milk, bob], Done(1), today) == ([milk.(done := true), bob], MarkedDone)
    ensures Step([milk.(done := true), bob], List(Some("pending")), today).1 == Listed([bob])
    ensures Step([milk.(done := true), bob], Remove(1), today) == ([bob], Removed)
  {
    var milkDone := milk.(done := true);
    assert FindIndex([milk, bob], 1) == Some(0);
    assert Step([milk, bob], Done(1), today).0 == [milkDone, bob];
    assert [milkDone, bob][..1] == [milkDone] && [milkDone][..0] == [];
    assert Filtered([milkDone], Some("pending")) == [];
    assert FindIndex([milkDone, bob], 1) == Some(0);
    assert [milkDone, bob][1..] == [bob];
  }
}
