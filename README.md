# task-tracker: identifier assignment and adding a task

A Dafny model of the core of `task_tracker.py`, a command-line task tracker
that keeps its tasks in `tasks.json`. The model covers the two pieces with
real logic:

- `get_id`, which assigns the identifier of a new task: 1 for an empty list,
  otherwise the largest existing `id` plus 1 (`TaskTracker.MaxId`,
  `TaskTracker.GetId`);
- the in-memory part of `add_task`: build a record with that id, the
  description as given, status `"todo"` and two timestamps, and append it to
  the list (`TaskTracker.TaskList.Add`, specified by the function
  `TaskTracker.Added`). `TaskTracker.AddTask` is the whole of `add_task` with
  the file treated as a value: what the file holds (or `None` when it does
  not exist) goes in, the list written back comes out.

A run of adds is the fold `TaskTracker.AddAll`; the lemmas about it state
the properties that hold across any number of adds: ids stay unique, each
new id exceeds every earlier one, positive ids stay positive, existing
records are never touched, and from an empty list the ids are 1, 2, …, n.

The two `datetime.now().isoformat()` readings are separate `Timestamp`
parameters (strings) with no relation imposed between them. Ids are
unbounded integers, as Python's are.

`add_task` performs no validation: any description, the empty string
included, is stored unchanged in the new record (task_tracker.py:22). Loaded ids are not
checked for positivity or uniqueness (task_tracker.py:10). The model
therefore has no precondition on the description, and it states uniqueness
and positivity as properties that adding preserves when they already hold.

## Model

| member | source | states |
|---|---|---|
| `TaskTracker.MaxId` | task_tracker.py:10 | the maximum of the ids of a non-empty list is an id present in it and is at least every id in it |
| `TaskTracker.GetId` | task_tracker.py:8-11 | an empty list gets id 1; otherwise the result is strictly greater than every id present and is one more than some id present (so it is exactly the maximum plus 1) |
| `TaskTracker.GetIdFresh` | task_tracker.py:10 | the assigned id is the id of no record already in the list |
| `TaskTracker.GetIdPositive` | task_tracker.py:9-11 | if every existing id is positive, the assigned id is positive |
| `TaskTracker.GetIdAfterConsecutive` | task_tracker.py:9-11 | on a list whose ids are 1..n in order, the next id is n + 1 |
| `TaskTracker.Added` | task_tracker.py:20-28 | one add grows the list by exactly one; earlier records are unchanged and in order; the new last record has id `GetId` of the old list, so above every earlier id, the description unchanged (any string, the empty one included), status "todo" and the two timestamps as given |
| `TaskTracker.AddedPreservesUnique` | task_tracker.py:21-28 | if ids are unique before an add they are unique after it |
| `TaskTracker.AddAll` | task_tracker.py:20-28 | a run of n adds, applied in order, grows the list by exactly n records |
| `TaskTracker.AddAllKeepsPrefix` | task_tracker.py:28 | any run of n adds grows the list by n and leaves the loaded records untouched and in order |
| `TaskTracker.AddAllIncreasing` | task_tracker.py:10-28 | across any run of adds, every added record has an id strictly greater than every record before it, whatever ids were loaded |
| `TaskTracker.AddAllPreservesUnique` | task_tracker.py:10-28 | id uniqueness is preserved across any run of adds |
| `TaskTracker.AddAllPreservesPositive` | task_tracker.py:10-28 | positivity of all ids is preserved across any run of adds |
| `TaskTracker.AddAllFromEmptyIds` | task_tracker.py:9-28 | starting from an empty list, n adds produce exactly n records with ids 1, 2, …, n in order |
| `TaskTracker.TaskList.constructor` | task_tracker.py:14-18 | the in-memory list starts as the loaded list |
| `TaskTracker.TaskList.Add` | task_tracker.py:20-28 | the new list is the old list with exactly one record appended: id `GetId` of the old list, the description as given, status "todo", the two timestamps; earlier records unchanged; the new id exceeds every earlier id; uniqueness of ids is preserved |
| `TaskTracker.AddTask` | task_tracker.py:13-31 | with no file the list to write is one add on the empty list, which is the single record with id 1; with a file it is one add on the stored list |

## Left out

- Reading and writing `tasks.json` and the existence check (task_tracker.py:14-18, 30-31): I/O; the file contents are the `stored` parameter of `AddTask`, and its result is the list handed to `json.dump`.
- JSON (de)serialisation with the `json` library (task_tracker.py:16, 31): a foreign library. Stored records are read as five-field `Task` values with integer ids. Files that do not parse as a list of such records are not modelled. In the source, such a file does one of several things: invalid JSON makes `json.load` raise before anything is written; an empty object `{}` gets id 1 and then `tasks.append` fails at line 28; a record without an `id` field makes line 10 raise; a float id is accepted and propagates into the new id (1.5 gives 2.5); records whose other fields are missing or extra pass through unchanged.
- TaskTracker.AddTask: always returns the list to be written, so a failed write is not modelled. The file is opened for writing at task_tracker.py:30, which truncates it, before `json.dump` runs at line 31. If the dump then raises, `tasks.json` is left empty or holding a cut-off JSON text, and every later `add_task` raises at line 16. A permissions error raises at line 30 itself, before anything is written; a disk-full error can make the dump raise after the truncation. It also raises on a description holding a lone surrogate: Python's argv can produce one from bytes that are not valid UTF-8, `ensure_ascii=False` passes it through, and the strict UTF-8 file refuses it. A Dafny `string` cannot hold a lone surrogate, so such descriptions are outside the model.
- `datetime.now().isoformat()` (task_tracker.py:24-25): clock access; the timestamps are opaque parameters.
- `main`, argparse dispatch and the confirmation print (task_tracker.py:41-53): command-line plumbing.
- `delete_task` and `list_tasks` (task_tracker.py:33-39): they are `pass` stubs with no behaviour; there is no update or status-change operation in the code, so none is modelled.
