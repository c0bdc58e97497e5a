/**
 The command branches of the tool's `main`, working in place on the loaded
 array of tasks.

 `tasks` is the array `main` loads and mutates; `saved` is the content that
 `saveTasks` last wrote to the JSON file. Every method is tied to the
 function of `TaskModel` that specifies its command, and says when the file
 is rewritten.
 */
module TaskCli {
  import opened TaskModel

  class TaskList {
    var tasks: seq<Task>
    var saved: seq<Task>

    /** `loadTasks`: the collection is whatever the file holds. */
    constructor (stored: seq<Task>)
      ensures tasks == stored && saved == stored
    {
      tasks := stored;
      saved := stored;
    }

    /** `saveTasks`: the file is overwritten with the whole collection. */
    method Save()
      modifies this
      ensures tasks == old(tasks) && saved == tasks
    {
      saved := tasks;
    }

    /**
     The linear scan behind `tasks.find` and `tasks.findIndex`: the index of
     the first task whose id is `id`, or -1.
     */
    method IndexOf(id: int) returns (k: int)
      ensures -1 <= k < |tasks|
      ensures 0 <= k ==> tasks[k].id == id && forall j :: 0 <= j < k ==> tasks[j].id != id
      ensures k == -1 <==> forall j :: 0 <= j < |tasks| ==> tasks[j].id != id
      ensures k == FirstIndex(tasks, id)
    {
      k := 0;
      while k < |tasks| && tasks[k].id != id
        invariant 0 <= k <= |tasks|
        invariant forall j :: 0 <= j < k ==> tasks[j].id != id
      {
        k := k + 1;
      }
      if k == |tasks| {
        k := -1;
      }
    }

    /** `add` (task-cli.js:33-56). */
    method Add(description: string, now: Timestamp) returns (r: Outcome)
      modifies this
      ensures Transition(tasks, r) == AddTask(old(tasks), description, now)
      ensures saved == if r.Ok? then tasks else old(saved)
    {
      if description == "" {
        return EmptyDescription;
      }
      var t := Task(|tasks| + 1, description, Todo, now, now);
      tasks := tasks + [t];
      Save();
      r := Ok(t.id);
    }

    /** `update` (task-cli.js:58-87). */
    method Update(id: Option<int>, description: string, now: Timestamp) returns (r: Outcome)
      modifies this
      ensures Transition(tasks, r) == UpdateTask(old(tasks), id, description, now)
      ensures saved == if r.Ok? then tasks else old(saved)
    {
      if id.None? {
        return InvalidId;
      }
      var k := IndexOf(id.value);
      if k == -1 {
        return NotFound;
      }
      if description == "" {
        return EmptyDescription;
      }
      tasks := tasks[k := tasks[k].(description := description)];
      tasks := tasks[k := tasks[k].(updatedAt := now)];
      Save();
      r := Ok(id.value);
    }

    /** `delete` (task-cli.js:89-108): `findIndex`, then `splice(index, 1)`. */
    method Delete(id: Option<int>) returns (r: Outcome)
      modifies this
      ensures Transition(tasks, r) == DeleteTask(old(tasks), id)
      ensures saved == if r.Ok? then tasks else old(saved)
    {
      if id.None? {
        return InvalidId;
      }
      var k := IndexOf(id.value);
      if k == -1 {
        return NotFound;
      }
      tasks := tasks[..k] + tasks[k + 1..];
      Save();
      r := Ok(id.value);
    }

    /**
     `mark-in-progress` (task-cli.js:110-131) with `status == InProgress`
     and `mark-done` (task-cli.js:133-154) with `status == Done`.
     */
    method Mark(id: Option<int>, status: string, now: Timestamp) returns (r: Outcome)
      modifies this
      ensures Transition(tasks, r) == SetStatus(old(tasks), id, status, now)
      ensures saved == if r.Ok? then tasks else old(saved)
    {
      if id.None? {
        return InvalidId;
      }
      var k := IndexOf(id.value);
      if k == -1 {
        return NotFound;
      }
      tasks := tasks[k := tasks[k].(status := status)];
      tasks := tasks[k := tasks[k].(updatedAt := now)];
      Save();
      r := Ok(id.value);
    }

    /** The `switch (command)` of `main` (task-cli.js:32-182). */
    method Run(cmd: Command, now: Timestamp) returns (r: Outcome)
      modifies this
      ensures Transition(tasks, r) == Execute(old(tasks), cmd, now)
      ensures saved == if r.Ok? then tasks else old(saved)
    {
      match cmd
      case Add(d) =>
        r := Add(d, now);
      case Update(id, d) =>
        r := Update(id, d, now);
      case Delete(id) =>
        r := Delete(id);
      case MarkInProgress(id) =>
        r := Mark(id, InProgress, now);
      case MarkDone(id) =>
        r := Mark(id, Done, now);
      case List(status) =>
        var found := ListTasks(tasks, status);
        r := Listed(|found|, found);
      case Other =>
        r := Unrecognized;
    }
  }
}
