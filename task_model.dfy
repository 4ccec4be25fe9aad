/**
 * The data of the task tracker: task statuses, tasks, and the task
 * collection as an insertion-ordered sequence of (id, task) entries.
 *
 * The persisted collection is a JSON object whose keys are decimal
 * strings; the model keeps each key as the natural number that
 * `int(k)` reads back from it.
 */
module TaskModel {

  datatype Option<T> = None | Some(value: T)

  /** The closed set of statuses a task may have (`TaskStatus`). */
  datatype Status = Todo | InProgress | Done

  /** The string value under which a status is stored and typed on the command line. */
  function StatusValue(st: Status): string
  {
    match st
    case Todo => "todo"
    case InProgress => "in-progress"
    case Done => "done"
  }

  /** The string values of all statuses (`valid_statuses`). */
  const ValidStatuses: set<string> := {"todo", "in-progress", "done"}

  /** `is_valid_status`: membership of a string in the set of status values. */
  function IsValidStatus(value: string): (b: bool)
    ensures b <==> exists st: Status :: StatusValue(st) == value
  {
    assert StatusValue(Todo) == "todo" && StatusValue(InProgress) == "in-progress" && StatusValue(Done) == "done";
    value in ValidStatuses
  }

  /** The status whose string value is `value`, if there is one. */
  function ParseStatus(value: string): (r: Option<Status>)
    ensures r.Some? <==> IsValidStatus(value)
    ensures r.Some? ==> StatusValue(r.value) == value
  {
    if value == "todo" then Some(Todo)
    else if value == "in-progress" then Some(InProgress)
    else if value == "done" then Some(Done)
    else None
  }

  /**
   * A wall-clock reading. The source stores the time formatted as
   * `YYYY-MM-DD HH:MM:SS`, whose string order is chronological order; the
   * model keeps the number of seconds it denotes.
   */
  type Timestamp = nat

  datatype Task = Task(description: string, status: Status, createdAt: Timestamp, updatedAt: Timestamp)

  /** One key/value pair of the collection, in iteration order. */
  datatype Entry = Entry(id: nat, task: Task)

  /** True iff some entry has key `id` (`id in jsondata`). */
  predicate HasKey(s: seq<Entry>, id: nat)
  {
    exists i :: 0 <= i < |s| && s[i].id == id
  }

  /** A dictionary never holds one key twice. */
  predicate DistinctKeys(s: seq<Entry>)
  {
    forall i, j :: 0 <= i < j < |s| ==> s[i].id != s[j].id
  }

  /** The keys are exactly 1..N in iteration order, as every save leaves them. */
  predicate IsDense(s: seq<Entry>)
  {
    forall i :: 0 <= i < |s| ==> s[i].id == i + 1
  }

  /** The tasks of the collection, in iteration order (`jsondata.values()`). */
  function Tasks(s: seq<Entry>): seq<Task>
  {
    seq(|s|, i requires 0 <= i < |s| => s[i].task)
  }

  /** Dictionary lookup: the position of the entry with key `id`, if any. */
  function Find(s: seq<Entry>, id: nat): (r: Option<nat>)
    ensures r.Some? <==> HasKey(s, id)
    ensures r.Some? ==> r.value < |s| && s[r.value].id == id
    ensures r.Some? ==> forall j :: 0 <= j < r.value ==> s[j].id != id
  {
    if s == [] then None
    else if s[0].id == id then Some(0)
    else match Find(s[1..], id)
      case None => None
      case Some(k) => Some(k + 1)
  }

  /** The largest key, or 0 for an empty collection (`max(..., default=0)`). */
  function MaxKey(s: seq<Entry>): (m: nat)
    ensures forall i :: 0 <= i < |s| ==> s[i].id <= m
    ensures s == [] ==> m == 0
    ensures s != [] ==> exists i :: 0 <= i < |s| && s[i].id == m
  {
    if s == [] then 0
    else
      var rest := MaxKey(s[1..]);
      if s[0].id >= rest then s[0].id else rest
  }

  /** In a dense collection the keys are distinct. */
  lemma DenseHasDistinctKeys(s: seq<Entry>)
    requires IsDense(s)
    ensures DistinctKeys(s)
  {
  }

  /** In a dense collection the largest key is the number of entries. */
  lemma DenseMaxKey(s: seq<Entry>)
    requires IsDense(s)
    ensures MaxKey(s) == |s|
  {
    if s != [] {
      assert s[|s| - 1].id == |s|;
    }
  }
}
