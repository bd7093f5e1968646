/** Identifier assignment and the in-memory part of adding a task
    (task_tracker.py). The JSON file, the clock and the command line are
    outside the model: the loaded list and the two timestamps are inputs. */
module TaskTracker {

  /** `datetime.now().isoformat()`; the model places no constraint on it. */
  type Timestamp = string

  /** The status every new task is given. */
  const TODO: string := "todo"

  /** One task record as it is stored in the list: `id`, `description`,
      `status`, `createdAt`, `updatedAt`. A loaded record may carry any
      integer id and any status; only `Add` fixes them. */
  datatype Task = Task(
    id: int,
    description: string,
    status: string,
    createdAt: Timestamp,
    updatedAt: Timestamp)

  /** The arguments of one add: the description and the two readings of the clock. */
  datatype AddRequest = AddRequest(description: string, createdAt: Timestamp, updatedAt: Timestamp)

  datatype Option<T> = None | Some(value: T)

  /** All ids in the list are pairwise distinct. */
  ghost predicate UniqueIds(tasks: seq<Task>)
  {
    forall i, j :: 0 <= i < j < |tasks| ==> tasks[i].id != tasks[j].id
  }

  /** Every record at index `from` or later has an id strictly greater than
      every record before it. */
  ghost predicate IncreasingFrom(tasks: seq<Task>, from: nat)
  {
    forall i, j :: 0 <= i < j < |tasks| && from <= j ==> tasks[i].id < tasks[j].id
  }

  ghost predicate AllPositive(tasks: seq<Task>)
  {
    forall i :: 0 <= i < |tasks| ==> tasks[i].id > 0
  }

  /** `max(task['id'] for task in tasks)`: an id present in the list that is
      at least every id in it. */
  function MaxId(tasks: seq<Task>): (m: int)
    requires tasks != []
    ensures forall i :: 0 <= i < |tasks| ==> tasks[i].id <= m
    ensures exists i :: 0 <= i < |tasks| && tasks[i].id == m
  {
    if |tasks| == 1 then tasks[0].id
    else
      var rest := MaxId(tasks[1..]);
      assert forall i :: 1 <= i < |tasks| ==> tasks[i] == tasks[1..][i - 1];
      if tasks[0].id >= rest then tasks[0].id else rest
  }

  /** `get_id`: 1 for an empty list, otherwise one more than the largest id.
      The result is strictly greater than every id present and is exactly
      one more than some id present, which determines it. */
  function GetId(tasks: seq<Task>): (r: int)
    ensures tasks == [] ==> r == 1
    ensures forall i :: 0 <= i < |tasks| ==> tasks[i].id < r
    ensures tasks != [] ==> exists i :: 0 <= i < |tasks| && tasks[i].id + 1 == r
  {
    if tasks != [] then MaxId(tasks) + 1 else 1
  }

  /** The list after one add (`tasks.append(new_task)`): exactly one record
      more, every earlier record where it was, and a last record with an id
      above every earlier id, the description unchanged (whatever it is, the
      empty string included), status "todo" and the two timestamps as given. */
  function Added(tasks: seq<Task>, req: AddRequest): (r: seq<Task>)
    ensures |r| == |tasks| + 1
    ensures r[..|tasks|] == tasks
    ensures forall i :: 0 <= i < |tasks| ==> tasks[i].id < r[|tasks|].id
    ensures r[|tasks|].id == GetId(tasks)
    ensures r[|tasks|].description == req.description && r[|tasks|].status == TODO
    ensures r[|tasks|].createdAt == req.createdAt && r[|tasks|].updatedAt == req.updatedAt
  {
    tasks + [Task(GetId(tasks), req.description, TODO, req.createdAt, req.updatedAt)]
  }

  /** The list after a run of adds, applied in order. */
  function AddAll(tasks: seq<Task>, reqs: seq<AddRequest>): (r: seq<Task>)
    ensures |r| == |tasks| + |reqs|
  {
    if reqs == [] then tasks
    else Added(AddAll(tasks, reqs[..|reqs| - 1]), reqs[|reqs| - 1])
  }

  /** The new id is not the id of any record already in the list. */
  lemma GetIdFresh(tasks: seq<Task>)
    ensures forall t :: t in tasks ==> t.id != GetId(tasks)
  {
  }

  /** If every existing id is positive, so is the assigned one. */
  lemma GetIdPositive(tasks: seq<Task>)
    requires AllPositive(tasks)
    ensures GetId(tasks) > 0
  {
  }

  /** On a list whose ids are 1, 2, ..., n in order, the next id is n + 1. */
  lemma GetIdAfterConsecutive(tasks: seq<Task>)
    requires forall k :: 0 <= k < |tasks| ==> tasks[k].id == k + 1
    ensures GetId(tasks) == |tasks| + 1
  {
    if tasks != [] {
      assert tasks[|tasks| - 1].id == |tasks|;
    }
  }

  /** One add keeps the ids unique. */
  lemma AddedPreservesUnique(tasks: seq<Task>, req: AddRequest)
    requires UniqueIds(tasks)
    ensures UniqueIds(Added(tasks, req))
  {
  }

  /** Any run of adds leaves the records that were there untouched and in order. */
  lemma {:induction false} AddAllKeepsPrefix(tasks: seq<Task>, reqs: seq<AddRequest>)
    ensures |AddAll(tasks, reqs)| == |tasks| + |reqs|
    ensures AddAll(tasks, reqs)[..|tasks|] == tasks
  {
    if reqs != [] {
      var before := AddAll(tasks, reqs[..|reqs| - 1]);
      AddAllKeepsPrefix(tasks, reqs[..|reqs| - 1]);
      assert AddAll(tasks, reqs) == before + [AddAll(tasks, reqs)[|before|]];
      assert AddAll(tasks, reqs)[..|tasks|] == before[..|tasks|];
    }
  }

  /** Across any run of adds, each record added has an id strictly greater
      than every record before it, whatever the ids already loaded were. */
  lemma {:induction false} AddAllIncreasing(tasks: seq<Task>, reqs: seq<AddRequest>)
    ensures IncreasingFrom(AddAll(tasks, reqs), |tasks|)
  {
    if reqs != [] {
      var before := AddAll(tasks, reqs[..|reqs| - 1]);
      AddAllIncreasing(tasks, reqs[..|reqs| - 1]);
      var after := Added(before, reqs[|reqs| - 1]);
      assert after == AddAll(tasks, reqs);
      forall i, j | 0 <= i < j < |after| && |tasks| <= j
        ensures after[i].id < after[j].id
      {
        if j < |before| {
          assert after[i] == before[i] && after[j] == before[j];
        } else {
          assert after[i] == before[i];
        }
      }
    }
  }

  /** If all ids are unique before a run of adds, they are unique after it. */
  lemma {:induction false} AddAllPreservesUnique(tasks: seq<Task>, reqs: seq<AddRequest>)
    requires UniqueIds(tasks)
    ensures UniqueIds(AddAll(tasks, reqs))
  {
    if reqs != [] {
      AddAllPreservesUnique(tasks, reqs[..|reqs| - 1]);
      AddedPreservesUnique(AddAll(tasks, reqs[..|reqs| - 1]), reqs[|reqs| - 1]);
    }
  }

  /** If all ids are positive before a run of adds, they are positive after it. */
  lemma {:induction false} AddAllPreservesPositive(tasks: seq<Task>, reqs: seq<AddRequest>)
    requires AllPositive(tasks)
    ensures AllPositive(AddAll(tasks, reqs))
  {
    if reqs != [] {
      var before := AddAll(tasks, reqs[..|reqs| - 1]);
      AddAllPreservesPositive(tasks, reqs[..|reqs| - 1]);
      GetIdPositive(before);
    }
  }

  /** Starting from an empty list, n adds give the ids 1, 2, ..., n in order. */
  lemma {:induction false} AddAllFromEmptyIds(reqs: seq<AddRequest>)
    ensures |AddAll([], reqs)| == |reqs|
    ensures forall k :: 0 <= k < |reqs| ==> AddAll([], reqs)[k].id == k + 1
  {
    if reqs != [] {
      var before := AddAll([], reqs[..|reqs| - 1]);
      AddAllFromEmptyIds(reqs[..|reqs| - 1]);
      GetIdAfterConsecutive(before);
    }
  }

  /** The list `add_task` works on, as it stands in memory. */
  class TaskList {
    var tasks: seq<Task>

    /** The list as loaded (empty when there is no file). */
    constructor (loaded: seq<Task>)
      ensures tasks == loaded
    {
      tasks := loaded;
    }

    /** Build the new record and append it (`tasks.append(new_task)`).
        No validation: every description is accepted. */
    method Add(description: string, createdAt: Timestamp, updatedAt: Timestamp)
      modifies this
      ensures tasks == Added(old(tasks), AddRequest(description, createdAt, updatedAt))
      ensures UniqueIds(old(tasks)) ==> UniqueIds(tasks)
    {
      var newTask := Task(GetId(tasks), description, TODO, createdAt, updatedAt);
      tasks := tasks + [newTask];
    }
  }

  /** `add_task` with the file as a value: `stored` is what the file holds
      (None when it does not exist), the result is what is written back. */
  method AddTask(stored: Option<seq<Task>>, description: string, createdAt: Timestamp, updatedAt: Timestamp)
    returns (written: seq<Task>)
    ensures stored.None? ==> written == Added([], AddRequest(description, createdAt, updatedAt))
    ensures stored.Some? ==> written == Added(stored.value, AddRequest(description, createdAt, updatedAt))
    ensures stored.None? ==> written == [Task(1, description, TODO, createdAt, updatedAt)]
  {
    var loaded := match stored
      case None => []
      case Some(s) => s;
    var list := new TaskList(loaded);
    list.Add(description, createdAt, updatedAt);
    written := list.tasks;
  }

  /** Three separate runs of `add_task`: the first on a missing file, each
      later one on the list the previous one wrote. */
  method Scenario(t1: Timestamp, t2: Timestamp, t3: Timestamp, t4: Timestamp)
  {
    var first := AddTask(None, "first", t1, t2);
    assert first == [Task(1, "first", TODO, t1, t2)];
    var second := AddTask(Some(first), "second", t3, t4);
    assert second[0] == first[0] && second[1].id == 2;
    assert second[1].description == "second" && second[1].status == TODO;
    var third := AddTask(Some(second), "", t1, t1);
    assert |third| == 3 && third[2].id == 3 && third[2].description == "";
  }
}
