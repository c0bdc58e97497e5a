/**
 The task collection of the task-tracker command-line tool, as values.

 A task is a plain record; the collection is the ordered sequence of tasks
 that the tool loads from its JSON file. Every command of the tool is given
 here as a pure function from the collection before the command to the
 collection after it, together with what the command reports. These
 functions are the specification that the in-place methods of `TaskCli`
 are proved against.
 */
module TaskModel {

  datatype Option<+T> = None | Some(value: T)

  /** A timestamp as the tool stores it (an ISO-8601 string); never inspected. */
  type Timestamp = string

  /** One task record as it is stored in the JSON file. */
  datatype Task = Task(
    id: int,
    description: string,
    status: string,
    createdAt: Timestamp,
    updatedAt: Timestamp)

  const Todo: string := "todo"
  const InProgress: string := "in-progress"
  const Done: string := "done"

  /** What a command reports on the console, as a value. */
  datatype Outcome =
    | Ok(id: int)                             // add, update, delete, mark-*: success
    | InvalidId                               // the id argument is not a number
    | NotFound                                // no task has the id
    | EmptyDescription                        // the joined description is empty
    | Listed(count: nat, found: seq<Task>)    // list: the count line and the tasks shown
    | Unrecognized                            // unknown or missing command: usage text

  /**
   A command with its arguments already taken apart: descriptions are the
   space-joined argument words, ids are the result of `parseInt` (`None`
   for NaN), and the list filter is the first argument if there is one.
   */
  datatype Command =
    | Add(description: string)
    | Update(id: Option<int>, description: string)
    | Delete(id: Option<int>)
    | MarkInProgress(id: Option<int>)
    | MarkDone(id: Option<int>)
    | List(status: Option<string>)
    | Other

  /** The collection after a command, and what the command reported. */
  datatype Transition = Transition(tasks: seq<Task>, outcome: Outcome)

  /**
   The index of the first task whose id is `id`, or -1 when there is none:
   what `Array.prototype.findIndex` returns for the predicate `t.id === id`.
   */
  function FirstIndex(ts: seq<Task>, id: int): (k: int)
    ensures -1 <= k < |ts|
    ensures 0 <= k ==> ts[k].id == id && forall j :: 0 <= j < k ==> ts[j].id != id
    ensures k == -1 ==> forall j :: 0 <= j < |ts| ==> ts[j].id != id
  {
    if ts == [] then -1
    else if ts[0].id == id then 0
    else
      var k := FirstIndex(ts[1..], id);
      if k == -1 then -1 else k + 1
  }

  /** The tasks whose status is exactly `status`, in their original order. */
  function WithStatus(ts: seq<Task>, status: string): (r: seq<Task>)
    ensures |r| <= |ts|
    ensures forall t :: t in r <==> t in ts && t.status == status
  {
    if ts == [] then []
    else if ts[0].status == status then [ts[0]] + WithStatus(ts[1..], status)
    else WithStatus(ts[1..], status)
  }

  /**
   The tasks `list` shows: all of them when the status argument is missing
   or empty (both are falsy in the source), otherwise those whose status
   equals the argument.
   */
  function ListTasks(ts: seq<Task>, status: Option<string>): (r: seq<Task>)
    ensures |r| <= |ts|
    ensures forall t :: t in r ==> t in ts
  {
    if status.None? || status.value == "" then ts else WithStatus(ts, status.value)
  }

  /** `add`: append a `todo` task whose id is the collection's length plus one. */
  function AddTask(ts: seq<Task>, description: string, now: Timestamp): (r: Transition)
    ensures r.outcome == Ok(|ts| + 1) || r.outcome == EmptyDescription
    ensures r.outcome.Ok? ==> |r.tasks| == |ts| + 1 && r.tasks[..|ts|] == ts
    ensures !r.outcome.Ok? ==> r.tasks == ts
  {
    if description == "" then Transition(ts, EmptyDescription)
    else
      var t := Task(|ts| + 1, description, Todo, now, now);
      Transition(ts + [t], Ok(t.id))
  }

  /** `update`: checks the id, then that the task exists, then the description. */
  function UpdateTask(ts: seq<Task>, id: Option<int>, description: string, now: Timestamp): (r: Transition)
    ensures r.outcome in {InvalidId, NotFound, EmptyDescription} || (id.Some? && r.outcome == Ok(id.value))
    ensures |r.tasks| == |ts|
    ensures forall i :: 0 <= i < |ts| ==> r.tasks[i].id == ts[i].id && r.tasks[i].status == ts[i].status
    ensures !r.outcome.Ok? ==> r.tasks == ts
  {
    if id.None? then Transition(ts, InvalidId)
    else
      var k := FirstIndex(ts, id.value);
      if k == -1 then Transition(ts, NotFound)
      else if description == "" then Transition(ts, EmptyDescription)
      else Transition(ts[k := ts[k].(description := description, updatedAt := now)], Ok(id.value))
  }

  /** `delete`: remove the first task with the id. */
  function DeleteTask(ts: seq<Task>, id: Option<int>): (r: Transition)
    ensures r.outcome in {InvalidId, NotFound} || (id.Some? && r.outcome == Ok(id.value))
    ensures |r.tasks| == if r.outcome.Ok? then |ts| - 1 else |ts|
    ensures forall t :: t in r.tasks ==> t in ts
    ensures !r.outcome.Ok? ==> r.tasks == ts
  {
    if id.None? then Transition(ts, InvalidId)
    else
      var k := FirstIndex(ts, id.value);
      if k == -1 then Transition(ts, NotFound)
      else Transition(ts[..k] + ts[k + 1..], Ok(id.value))
  }

  /** `mark-in-progress` and `mark-done`: set the status of the first task with the id. */
  function SetStatus(ts: seq<Task>, id: Option<int>, status: string, now: Timestamp): (r: Transition)
    ensures r.outcome in {InvalidId, NotFound} || (id.Some? && r.outcome == Ok(id.value))
    ensures |r.tasks| == |ts|
    ensures forall i :: 0 <= i < |ts| ==> r.tasks[i].id == ts[i].id && r.tasks[i].description == ts[i].description
    ensures !r.outcome.Ok? ==> r.tasks == ts
  {
    if id.None? then Transition(ts, InvalidId)
    else
      var k := FirstIndex(ts, id.value);
      if k == -1 then Transition(ts, NotFound)
      else Transition(ts[k := ts[k].(status := status, updatedAt := now)], Ok(id.value))
  }

  /**
   One run of the tool: the `switch` over the command name. Only a
   reported success changes the collection; `list` and the usage text
   never do.
   */
  function Execute(ts: seq<Task>, cmd: Command, now: Timestamp): (r: Transition)
    ensures !r.outcome.Ok? ==> r.tasks == ts
    ensures r.outcome.Listed? <==> cmd.List?
    ensures r.outcome.Unrecognized? <==> cmd.Other?
  {
    match cmd
    case Add(d) => AddTask(ts, d, now)
    case Update(id, d) => UpdateTask(ts, id, d, now)
    case Delete(id) => DeleteTask(ts, id)
    case MarkInProgress(id) => SetStatus(ts, id, InProgress, now)
    case MarkDone(id) => SetStatus(ts, id, Done, now)
    case List(status) =>
      var found := ListTasks(ts, status);
      Transition(ts, Listed(|found|, found))
    case Other => Transition(ts, Unrecognized)
  }
}
