/**
 * The task store: the in-memory collection that each command changes in
 * place, the renumbering applied on save, and the listing loop.
 */
module TaskStore {
  import opened TaskModel
  import opened TaskOps

  /** `reorganize_ids`: a fresh collection with keys 1..N over the tasks in order. */
  method ReorganizeIds(jsondata: seq<Entry>) returns (r: seq<Entry>)
    ensures r == Renumbered(jsondata)
    ensures |r| == |jsondata| && IsDense(r) && Tasks(r) == Tasks(jsondata)
  {
    RenumberedSpec(jsondata);
    if jsondata == [] {
      return [];
    }
    r := [];
    var newId := 1;
    while newId <= |jsondata|
      invariant 1 <= newId <= |jsondata| + 1
      invariant |r| == newId - 1
      invariant forall k :: 0 <= k < |r| ==> r[k] == Entry(k + 1, jsondata[k].task)
    {
      r := r + [Entry(newId, jsondata[newId - 1].task)];
      newId := newId + 1;
    }
  }

  /**
   * The row selection of `list_tasks`: the rows printed, whether the
   * "No tasks found" line is printed (empty collection) and whether the
   * "No tasks found with status" line is printed (no row printed).
   */
  method ListTasks(jsondata: seq<Entry>, statusFilter: string) returns (rows: seq<Entry>, noTasks: bool, noMatch: bool)
    ensures rows == Shown(jsondata, statusFilter)
    ensures noTasks <==> jsondata == []
    ensures noMatch <==> rows == []
    ensures noMatch <==> forall i :: 0 <= i < |jsondata| ==> !Matches(jsondata[i], statusFilter)
  {
    noTasks := jsondata == [];
    rows := [];
    var flag := false;
    var i := 0;
    while i < |jsondata|
      invariant 0 <= i <= |jsondata|
      invariant rows == Shown(jsondata[..i], statusFilter)
      invariant flag <==> rows != []
    {
      ShownAppend(jsondata[..i], jsondata[i], statusFilter);
      assert jsondata[..i + 1] == jsondata[..i] + [jsondata[i]];
      if statusFilter == "all" || StatusValue(jsondata[i].task.status) == statusFilter {
        flag := true;
        rows := rows + [jsondata[i]];
      }
      i := i + 1;
    }
    assert jsondata[..i] == jsondata;
    noMatch := !flag;
    ShownEmpty(jsondata, statusFilter);
  }

  /** What `update_task_status` reports. */
  datatype UpdateOutcome = InvalidStatus | NoSuchTask | StatusChanged

  /** The `jsondata` dictionary that `main` loads and every command changes in place. */
  class TaskCollection {
    var entries: seq<Entry>

    /** A dictionary holds each key once. */
    ghost predicate Valid()
      reads this
    {
      DistinctKeys(entries)
    }

    /** The collection as loaded from the task file. */
    constructor (loaded: seq<Entry>)
      requires DistinctKeys(loaded)
      ensures Valid() && entries == loaded
    {
      entries := loaded;
    }

    /** `add_task`: insert a todo task under the largest key plus one; returns that key. */
    method AddTask(description: string, now: Timestamp) returns (newId: nat)
      requires Valid()
      modifies this
      ensures Valid()
      ensures newId == NextId(old(entries)) && !HasKey(old(entries), newId)
      ensures entries == Added(old(entries), description, now)
    {
      AddedSpec(entries, description, now);
      var maxId := MaxKey(entries);
      newId := maxId + 1;
      entries := entries + [Entry(newId, Task(description, Todo, now, now))];
    }

    /** `delete_task`: pop the entry for `taskId`; reports whether it was there. */
    method DeleteTask(taskId: nat) returns (deleted: bool)
      requires Valid()
      modifies this
      ensures Valid()
      ensures deleted <==> HasKey(old(entries), taskId)
      ensures entries == Deleted(old(entries), taskId)
    {
      DeletedSpec(entries, taskId);
      match Find(entries, taskId)
      case None =>
        deleted := false;
      case Some(i) =>
        entries := entries[..i] + entries[i + 1..];
        deleted := true;
    }

    /** `clean_tasks`: empty the collection. */
    method CleanTasks()
      requires Valid()
      modifies this
      ensures Valid() && entries == []
    {
      entries := [];
    }

    /**
     * `update_task_status`: the status is checked first, then the key; only a
     * valid status on a present key changes the task's status and update time.
     */
    method UpdateTaskStatus(taskId: nat, newStatus: string, now: Timestamp) returns (outcome: UpdateOutcome)
      requires Valid()
      modifies this
      ensures Valid()
      ensures outcome == InvalidStatus <==> !IsValidStatus(newStatus)
      ensures outcome == NoSuchTask <==> IsValidStatus(newStatus) && !HasKey(old(entries), taskId)
      ensures entries == StatusUpdated(old(entries), taskId, newStatus, now)
    {
      match ParseStatus(newStatus)
      case None =>
        outcome := InvalidStatus;
      case Some(st) =>
        UpdateValidStatus(entries, taskId, st, now);
        match Find(entries, taskId)
        case None =>
          outcome := NoSuchTask;
        case Some(i) =>
          entries := entries[i := Entry(taskId, entries[i].task.(status := st, updatedAt := now))];
          outcome := StatusChanged;
    }

    /** The renumbering step of `save_tasks`; the file write is not modelled. */
    method SaveTasks()
      requires Valid()
      modifies this
      ensures Valid() && IsDense(entries)
      ensures entries == Renumbered(old(entries))
    {
      entries := ReorganizeIds(entries);
      DenseHasDistinctKeys(entries);
    }
  }
}
