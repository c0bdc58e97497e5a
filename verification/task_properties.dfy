/**
 What the commands of the task tracker promise, proved about the functions
 of `TaskModel` (and so, through the methods' postconditions, about the
 in-place class `TaskCli.TaskList`).
 */
module TaskProperties {
  import opened TaskModel

  /** The statuses the tool itself writes. */
  predicate KnownStatus(s: string)
  {
    s == Todo || s == InProgress || s == Done
  }

  /**
   The shape of every task the tool creates or edits: a positive id, a
   non-empty description and one of the three statuses.
   */
  ghost predicate WellFormed(ts: seq<Task>)
  {
    forall i :: 0 <= i < |ts| ==>
      ts[i].id >= 1 && ts[i].description != "" && KnownStatus(ts[i].status)
  }

  ghost predicate UniqueIds(ts: seq<Task>)
  {
    forall i, j :: 0 <= i < j < |ts| ==> ts[i].id != ts[j].id
  }

  /** The outcomes that report an error or the usage text. */
  predicate Failed(o: Outcome)
  {
    o.InvalidId? || o.NotFound? || o.EmptyDescription? || o.Unrecognized?
  }

  // ---------------------------------------------------------------- add

  /**
   A successful `add` appends exactly one task at the end: its id is the old
   length plus one, its status `todo`, both timestamps the supplied time;
   every earlier task is unchanged.
   */
  lemma AddAppends(ts: seq<Task>, description: string, now: Timestamp)
    requires description != ""
    ensures var s := AddTask(ts, description, now);
      && s.outcome == Ok(|ts| + 1)
      && |s.tasks| == |ts| + 1
      && s.tasks[..|ts|] == ts
      && s.tasks[|ts|].id == |ts| + 1
      && s.tasks[|ts|].description == description
      && s.tasks[|ts|].status == Todo
      && s.tasks[|ts|].createdAt == now == s.tasks[|ts|].updatedAt
  {
  }

  /** `add` with an empty description reports it and changes nothing. */
  lemma AddEmptyRejected(ts: seq<Task>, now: Timestamp)
    ensures AddTask(ts, "", now) == Transition(ts, EmptyDescription)
  {
  }

  /**
   Ids are assigned by count: on a collection of distinct ids, a new task
   keeps them distinct exactly when no task already holds the old length
   plus one (which a deletion makes possible).
   */
  lemma {:induction false} AddKeepsIdsUniqueIff(ts: seq<Task>, description: string, now: Timestamp)
    requires UniqueIds(ts)
    requires description != ""
    ensures UniqueIds(AddTask(ts, description, now).tasks)
      <==> forall i :: 0 <= i < |ts| ==> ts[i].id != |ts| + 1
  {
    var r := AddTask(ts, description, now).tasks;
    assert r[..|ts|] == ts;
    if UniqueIds(r) {
      forall i | 0 <= i < |ts| ensures ts[i].id != |ts| + 1 {
        assert r[i] == ts[i] && r[|ts|].id == |ts| + 1;
      }
    }
  }

  // ---------------------------------------------------------------- update

  /**
   `update` stops at the first failed check and then changes nothing: an
   unparsable id first, then a missing task (even when the description is
   empty too), then an empty description.
   */
  lemma UpdateValidationOrder(ts: seq<Task>, id: Option<int>, description: string, now: Timestamp)
    ensures id.None? ==> UpdateTask(ts, id, description, now) == Transition(ts, InvalidId)
    ensures id.Some? && (forall t :: t in ts ==> t.id != id.value)
      ==> UpdateTask(ts, id, description, now) == Transition(ts, NotFound)
    ensures id.Some? && (exists t :: t in ts && t.id == id.value) && description == ""
      ==> UpdateTask(ts, id, description, now) == Transition(ts, EmptyDescription)
    ensures UpdateTask(ts, id, description, now).outcome.Ok?
      <==> id.Some? && (exists t :: t in ts && t.id == id.value) && description != ""
  {
  }

  /**
   A successful `update` changes the description and `updatedAt` of the
   first task with the id, and nothing else: not the length, not the order,
   not any other task, not that task's id, status or `createdAt`.
   */
  lemma UpdateChangesOnlyFirstMatch(ts: seq<Task>, id: int, description: string, now: Timestamp)
    requires UpdateTask(ts, Some(id), description, now).outcome.Ok?
    ensures var r := UpdateTask(ts, Some(id), description, now).tasks;
      var k := FirstIndex(ts, id);
      && 0 <= k
      && |r| == |ts|
      && (forall j :: 0 <= j < |ts| && j != k ==> r[j] == ts[j])
      && r[k].id == ts[k].id == id
      && r[k].status == ts[k].status
      && r[k].createdAt == ts[k].createdAt
      && r[k].description == description
      && r[k].updatedAt == now
      && (forall j :: 0 <= j < k ==> r[j].id != id)
  {
  }

  // ---------------------------------------------------------------- delete

  /**
   A successful `delete` removes exactly the first task with the id: one
   task fewer, the others in their relative order; an invalid id or a
   missing task changes nothing.
   */
  lemma DeleteRemovesFirstMatch(ts: seq<Task>, id: Option<int>)
    ensures var s := DeleteTask(ts, id);
      && (s.outcome.Ok? <==> id.Some? && exists t :: t in ts && t.id == id.value)
      && (!s.outcome.Ok? ==> s.tasks == ts)
    ensures var s := DeleteTask(ts, id);
      s.outcome.Ok? ==>
        var k := FirstIndex(ts, id.value);
        && 0 <= k
        && ts[k].id == id.value
        && |s.tasks| == |ts| - 1
        && s.tasks[..k] == ts[..k]
        && s.tasks[k..] == ts[k + 1..]
        && multiset(s.tasks) + multiset{ts[k]} == multiset(ts)
  {
    var s := DeleteTask(ts, id);
    if id.Some? {
      var k := FirstIndex(ts, id.value);
      if k != -1 {
        assert ts[k] in ts;
        assert ts == ts[..k] + [ts[k]] + ts[k + 1..];
      }
    }
  }

  /**
   With distinct ids, deleting the same id a second time reports that the
   task is not found (with duplicate ids it need not: see
   `DuplicateIdsReachable`).
   */
  lemma DeleteTwiceNotFound(ts: seq<Task>, id: int)
    requires UniqueIds(ts)
    requires DeleteTask(ts, Some(id)).outcome.Ok?
    ensures DeleteTask(DeleteTask(ts, Some(id)).tasks, Some(id)) == Transition(DeleteTask(ts, Some(id)).tasks, NotFound)
  {
  }

  // ---------------------------------------------------------------- mark

  /**
   `mark-in-progress` / `mark-done` set the status of the first task with
   the id and refresh its `updatedAt`; everything else is untouched. An
   invalid id or a missing task changes nothing.
   */
  lemma MarkSetsStatus(ts: seq<Task>, id: Option<int>, status: string, now: Timestamp)
    ensures var s := SetStatus(ts, id, status, now);
      && (s.outcome.Ok? <==> id.Some? && exists t :: t in ts && t.id == id.value)
      && (!s.outcome.Ok? ==> s.tasks == ts)
    ensures var s := SetStatus(ts, id, status, now);
      s.outcome.Ok? ==>
        var k := FirstIndex(ts, id.value);
        && 0 <= k
        && |s.tasks| == |ts|
        && (forall j :: 0 <= j < |ts| && j != k ==> s.tasks[j] == ts[j])
        && s.tasks[k] == Task(id.value, ts[k].description, status, ts[k].createdAt, now)
  {
  }

  /** Changing anything but ids does not move the first task with an id. */
  lemma FirstIndexSameIds(a: seq<Task>, b: seq<Task>, id: int)
    requires |a| == |b|
    requires forall i :: 0 <= i < |a| ==> a[i].id == b[i].id
    ensures FirstIndex(a, id) == FirstIndex(b, id)
  {
  }

  /**
   Two status changes of the same task leave the state of the last one:
   the first is overwritten completely, never partly kept.
   */
  lemma MarkLastWriteWins(ts: seq<Task>, id: Option<int>, s1: string, n1: Timestamp, s2: string, n2: Timestamp)
    ensures SetStatus(SetStatus(ts, id, s1, n1).tasks, id, s2, n2) == SetStatus(ts, id, s2, n2)
  {
  }

  // ---------------------------------------------------------------- list

  /** `list` without a status (or with an empty one) shows every task, in order. */
  lemma ListAll(ts: seq<Task>, status: Option<string>, now: Timestamp)
    requires status.None? || status == Some("")
    ensures Execute(ts, List(status), now).outcome == Listed(|ts|, ts)
  {
  }

  /** `list <status>` shows exactly the tasks with that status. */
  lemma ListFilters(ts: seq<Task>, status: string)
    requires status != ""
    ensures var r := ListTasks(ts, Some(status));
      && (forall t :: t in r <==> t in ts && t.status == status)
      && (forall i :: 0 <= i < |r| ==> r[i].status == status)
      && |r| <= |ts|
  {
  }

  /**
   Filtering keeps the original order: filtering a concatenation
   concatenates the filtered parts.
   */
  lemma {:induction false} WithStatusAppend(a: seq<Task>, b: seq<Task>, status: string)
    ensures WithStatus(a + b, status) == WithStatus(a, status) + WithStatus(b, status)
  {
    if a == [] {
      assert a + b == b;
    } else {
      assert (a + b)[1..] == a[1..] + b;
      WithStatusAppend(a[1..], b, status);
    }
  }

  /** Filtering a single task keeps it exactly when its status matches. */
  lemma WithStatusSingle(t: Task, status: string)
    ensures WithStatus([t], status) == if t.status == status then [t] else []
  {
  }

  /** A status that no task has, known or not, yields no task. */
  lemma {:induction false} ListUnknownStatusEmpty(ts: seq<Task>, status: string)
    requires status != ""
    requires forall t :: t in ts ==> t.status != status
    ensures ListTasks(ts, Some(status)) == []
  {
    if ts != [] {
      assert ts[0] in ts;
      ListUnknownStatusEmpty(ts[1..], status);
    }
  }

  /**
   On tasks the tool wrote itself, `list` with any status other than the
   three it knows shows no task.
   */
  lemma ListOtherStatusShowsNothing(ts: seq<Task>, status: string, now: Timestamp)
    requires WellFormed(ts)
    requires status != "" && !KnownStatus(status)
    ensures Execute(ts, List(Some(status)), now).outcome == Listed(0, [])
  {
    ListUnknownStatusEmpty(ts, status);
  }

  /** Filtering twice by the same status filters once. */
  lemma {:induction false} WithStatusIdempotent(ts: seq<Task>, status: string)
    ensures WithStatus(WithStatus(ts, status), status) == WithStatus(ts, status)
  {
    if ts != [] {
      WithStatusIdempotent(ts[1..], status);
    }
  }

  /** `list` never changes the collection, and its count line is the number of tasks shown. */
  lemma ListNeverMutates(ts: seq<Task>, status: Option<string>, now: Timestamp)
    ensures var s := Execute(ts, List(status), now);
      s.tasks == ts && s.outcome.Listed? && s.outcome.count == |s.outcome.found|
  {
  }

  // ---------------------------------------------------------------- all commands

  /** A command that reports an error, or an unknown command, changes nothing. */
  lemma FailureChangesNothing(ts: seq<Task>, cmd: Command, now: Timestamp)
    ensures Failed(Execute(ts, cmd, now).outcome) ==> Execute(ts, cmd, now).tasks == ts
    ensures Execute(ts, Other, now) == Transition(ts, Unrecognized)
  {
  }

  /** Every command keeps every task well formed. */
  lemma ExecuteKeepsWellFormed(ts: seq<Task>, cmd: Command, now: Timestamp)
    requires WellFormed(ts)
    ensures WellFormed(Execute(ts, cmd, now).tasks)
  {
  }

  /**
   Ids come from the count, so duplicates are reachable: add, add,
   delete 1, add leaves two tasks with id 2, and deleting id 2 then
   succeeds twice.
   */
  lemma DuplicateIdsReachable(now: Timestamp)
    ensures var s1 := Execute([], Add("a"), now);
      var s2 := Execute(s1.tasks, Add("b"), now);
      var s3 := Execute(s2.tasks, Delete(Some(1)), now);
      var s4 := Execute(s3.tasks, Add("c"), now);
      var s5 := Execute(s4.tasks, Delete(Some(2)), now);
      var s6 := Execute(s5.tasks, Delete(Some(2)), now);
      && s4.outcome == Ok(2)
      && |s4.tasks| == 2 && s4.tasks[0].id == 2 && s4.tasks[1].id == 2
      && s5.outcome == Ok(2) && s6.outcome == Ok(2) && s6.tasks == []
  {
  }

  /**
   The walk-through of the tool: on an empty file, `add "Buy milk"` gives
   task 1 in `todo`; `mark-done 1` makes `list done` show it; `delete 1`
   leaves `list` showing no task.
   */
  lemma EndToEnd(n1: Timestamp, n2: Timestamp, n3: Timestamp)
    ensures var s1 := Execute([], Add("Buy milk"), n1);
      var s2 := Execute(s1.tasks, MarkDone(Some(1)), n2);
      var s3 := Execute(s2.tasks, Delete(Some(1)), n3);
      && s1.outcome == Ok(1) && s1.tasks[0].status == Todo
      && Execute(s2.tasks, List(Some(Done)), n3).outcome
         == Listed(1, [Task(1, "Buy milk", Done, n1, n2)])
      && Execute(s3.tasks, List(None), n3).outcome == Listed(0, [])
  {
  }
}
