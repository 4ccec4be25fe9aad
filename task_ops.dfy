/**
 * What each operation of the task store does to the collection, as
 * functions of the collection before the operation, and the properties
 * the tracker promises of them.
 */
module TaskOps {
  import opened TaskModel

  // ---------------------------------------------------------------------
  // Renumbering (`reorganize_ids`)
  // ---------------------------------------------------------------------

  /** The entries of `s` in order, their keys replaced by start, start+1, ... */
  function RenumberFrom(s: seq<Entry>, start: nat): seq<Entry>
  {
    if s == [] then [] else [Entry(start, s[0].task)] + RenumberFrom(s[1..], start + 1)
  }

  /** The collection that `reorganize_ids` builds: keys 1..N over the tasks in order. */
  function Renumbered(s: seq<Entry>): seq<Entry>
  {
    RenumberFrom(s, 1)
  }

  lemma {:induction false} RenumberFromAt(s: seq<Entry>, start: nat, k: nat)
    requires k < |s|
    ensures |RenumberFrom(s, start)| == |s|
    ensures RenumberFrom(s, start)[k] == Entry(start + k, s[k].task)
  {
    if k > 0 {
      RenumberFromAt(s[1..], start + 1, k - 1);
    } else if |s| > 1 {
      RenumberFromAt(s[1..], start + 1, 0);
    }
  }

  /** Renumbering keeps the size and the tasks in order and makes the keys 1..N. */
  lemma RenumberedSpec(s: seq<Entry>)
    ensures |Renumbered(s)| == |s|
    ensures IsDense(Renumbered(s))
    ensures Tasks(Renumbered(s)) == Tasks(s)
    ensures forall k :: 0 <= k < |s| ==> Renumbered(s)[k] == Entry(k + 1, s[k].task)
  {
    if s == [] {
    } else {
      RenumberFromAt(s, 1, 0);
      forall k | 0 <= k < |s| ensures Renumbered(s)[k] == Entry(k + 1, s[k].task) {
        RenumberFromAt(s, 1, k);
      }
    }
  }

  /** A collection whose keys are already 1..N is left as it is by renumbering. */
  lemma RenumberedOfDense(s: seq<Entry>)
    requires IsDense(s)
    ensures Renumbered(s) == s
  {
    RenumberedSpec(s);
    forall k | 0 <= k < |s| ensures Renumbered(s)[k] == s[k] {
      assert s[k] == Entry(s[k].id, s[k].task);
    }
  }

  /** Renumbering twice is renumbering once. */
  lemma RenumberedIdempotent(s: seq<Entry>)
    ensures Renumbered(Renumbered(s)) == Renumbered(s)
  {
    RenumberedSpec(s);
    RenumberedOfDense(Renumbered(s));
  }

  // ---------------------------------------------------------------------
  // Add (`add_task`)
  // ---------------------------------------------------------------------

  /** The key `add_task` gives a new task: the largest key plus one. */
  function NextId(s: seq<Entry>): nat
  {
    MaxKey(s) + 1
  }

  /** The task `add_task` creates: status todo, both timestamps from the clock. */
  function NewTask(description: string, now: Timestamp): Task
  {
    Task(description, Todo, now, now)
  }

  /** The collection after `add_task`: the new entry is inserted last. */
  function Added(s: seq<Entry>, description: string, now: Timestamp): seq<Entry>
  {
    s + [Entry(NextId(s), NewTask(description, now))]
  }

  /**
   * The new key is not in use, so keys stay distinct; every earlier entry is
   * unchanged and the collection grows by one todo task stamped `now`.
   */
  lemma AddedSpec(s: seq<Entry>, description: string, now: Timestamp)
    requires DistinctKeys(s)
    ensures !HasKey(s, NextId(s))
    ensures DistinctKeys(Added(s, description, now))
    ensures |Added(s, description, now)| == |s| + 1
    ensures Added(s, description, now)[..|s|] == s
    ensures HasKey(Added(s, description, now), NextId(s))
    ensures var t := Added(s, description, now)[|s|].task;
      t.description == description && t.status == Todo && t.createdAt == now && t.updatedAt == now
  {
    assert Added(s, description, now)[|s|].id == NextId(s);
  }

  /** On a collection as a save leaves it (keys 1..N) the new key is N + 1. */
  lemma AddedToDense(s: seq<Entry>, description: string, now: Timestamp)
    requires IsDense(s)
    ensures NextId(s) == |s| + 1
    ensures IsDense(Added(s, description, now))
  {
    DenseMaxKey(s);
  }

  // ---------------------------------------------------------------------
  // Delete (`delete_task`)
  // ---------------------------------------------------------------------

  /** The collection after `jsondata.pop(task_id, None)`. */
  function Deleted(s: seq<Entry>, id: nat): seq<Entry>
  {
    match Find(s, id)
    case None => s
    case Some(i) => s[..i] + s[i + 1..]
  }

  /**
   * Deleting removes the entry for `id` when there is one and keeps every
   * other entry in its order; an absent key leaves the collection as it was.
   */
  lemma DeletedSpec(s: seq<Entry>, id: nat)
    requires DistinctKeys(s)
    ensures DistinctKeys(Deleted(s, id))
    ensures !HasKey(Deleted(s, id), id)
    ensures forall e :: e in Deleted(s, id) <==> e in s && e.id != id
    ensures HasKey(s, id) ==> |Deleted(s, id)| == |s| - 1
    ensures !HasKey(s, id) ==> Deleted(s, id) == s
    ensures HasKey(s, id) ==>
      exists i :: 0 <= i < |s| && s[i].id == id && Deleted(s, id) == s[..i] + s[i + 1..]
  {
    if HasKey(s, id) {
      var i := Find(s, id).value;
      assert s[i].id == id;
    }
  }

  // ---------------------------------------------------------------------
  // Update status (`update_task_status`)
  // ---------------------------------------------------------------------

  /**
   * The collection after `update_task_status`: an invalid status or an
   * absent key change nothing; otherwise the status and the update time of
   * that one task are set.
   */
  function StatusUpdated(s: seq<Entry>, id: nat, newStatus: string, now: Timestamp): seq<Entry>
  {
    match ParseStatus(newStatus)
    case None => s
    case Some(st) =>
      match Find(s, id)
      case None => s
      case Some(i) => s[i := Entry(id, s[i].task.(status := st, updatedAt := now))]
  }

  /** A status outside the enumeration leaves the collection unchanged, whatever the key. */
  lemma UpdateInvalidStatus(s: seq<Entry>, id: nat, newStatus: string, now: Timestamp)
    requires !IsValidStatus(newStatus)
    ensures StatusUpdated(s, id, newStatus, now) == s
  {
  }

  /**
   * With a valid status, the entry for `id` gets that status and `now` as its
   * update time, its description and creation time are kept, and every other
   * entry is untouched; an absent key changes nothing.
   */
  lemma UpdateValidStatus(s: seq<Entry>, id: nat, st: Status, now: Timestamp)
    requires DistinctKeys(s)
    ensures var r := StatusUpdated(s, id, StatusValue(st), now);
      && |r| == |s|
      && DistinctKeys(r)
      && (forall j :: 0 <= j < |s| && s[j].id != id ==> r[j] == s[j])
      && (forall j :: 0 <= j < |s| && s[j].id == id ==>
            r[j] == Entry(id, Task(s[j].task.description, st, s[j].task.createdAt, now)))
      && (!HasKey(s, id) ==> r == s)
  {
  }

  // ---------------------------------------------------------------------
  // Listing (`list_tasks`)
  // ---------------------------------------------------------------------

  /** The filter test of `list_tasks`: "all", or equal to the task's status value. */
  predicate Matches(e: Entry, statusFilter: string)
  {
    statusFilter == "all" || StatusValue(e.task.status) == statusFilter
  }

  /** The rows `list_tasks` prints, in iteration order. */
  function Shown(s: seq<Entry>, statusFilter: string): seq<Entry>
  {
    if s == [] then []
    else (if Matches(s[0], statusFilter) then [s[0]] else []) + Shown(s[1..], statusFilter)
  }

  /** Appending an entry to the input appends it to the rows when it matches. */
  lemma {:induction false} ShownAppend(s: seq<Entry>, e: Entry, statusFilter: string)
    ensures Shown(s + [e], statusFilter)
         == Shown(s, statusFilter) + (if Matches(e, statusFilter) then [e] else [])
  {
    if s == [] {
      assert s + [e] == [e];
    } else {
      assert (s + [e])[1..] == s[1..] + [e];
      ShownAppend(s[1..], e, statusFilter);
    }
  }

  /** The rows are exactly the matching entries of the collection. */
  lemma {:induction false} ShownSpec(s: seq<Entry>, statusFilter: string)
    ensures forall e :: e in Shown(s, statusFilter) <==> e in s && Matches(e, statusFilter)
    ensures |Shown(s, statusFilter)| <= |s|
  {
    if s != [] {
      ShownSpec(s[1..], statusFilter);
      assert s == [s[0]] + s[1..];
    }
  }

  /** With the filter "all" every entry is shown, in order. */
  lemma {:induction false} ShownAll(s: seq<Entry>)
    ensures Shown(s, "all") == s
  {
    if s != [] {
      ShownAll(s[1..]);
      assert s == [s[0]] + s[1..];
    }
  }

  /** No row is shown exactly when no entry matches the filter. */
  lemma ShownEmpty(s: seq<Entry>, statusFilter: string)
    ensures Shown(s, statusFilter) == [] <==> forall i :: 0 <= i < |s| ==> !Matches(s[i], statusFilter)
  {
  }
}
