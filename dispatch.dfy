/**
 * The command dispatcher: one command per invocation runs against the
 * loaded collection, which is then saved (and so renumbered) whatever the
 * command was, `list` included.
 */
module Dispatch {
  import opened TaskModel
  import opened TaskOps
  import opened TaskStore

  /** The five commands of the command table, with their parsed arguments. */
  datatype Command =
    | Add(description: string)
    | Delete(taskId: nat)
    | Clean
    | Update(taskId: nat, newStatus: string)
    | List(statusFilter: string)

  /** What a command reports on the console, without the text itself. */
  datatype Report =
    | TaskAdded(id: nat)
    | TaskDeleted(existed: bool)
    | TasksCleaned
    | StatusReport(outcome: UpdateOutcome)
    | Listing(rows: seq<Entry>, noTasks: bool, noMatch: bool)

  /** The collection after the command's operation, before the save. */
  function Apply(s: seq<Entry>, cmd: Command, now: Timestamp): seq<Entry>
  {
    match cmd
    case Add(description) => Added(s, description, now)
    case Delete(taskId) => Deleted(s, taskId)
    case Clean => []
    case Update(taskId, newStatus) => StatusUpdated(s, taskId, newStatus, now)
    case List(_) => s
  }

  /** The collection written to the task file by one invocation of `main`. */
  function Run(s: seq<Entry>, cmd: Command, now: Timestamp): seq<Entry>
  {
    Renumbered(Apply(s, cmd, now))
  }

  /** `main`: run one command on the loaded collection, then save it. */
  method RunCommand(store: TaskCollection, cmd: Command, now: Timestamp) returns (report: Report)
    requires store.Valid()
    modifies store
    ensures store.Valid() && IsDense(store.entries)
    ensures store.entries == Run(old(store.entries), cmd, now)
    ensures cmd.Add? ==> report == TaskAdded(NextId(old(store.entries)))
    ensures cmd.Delete? ==> report == TaskDeleted(HasKey(old(store.entries), cmd.taskId))
    ensures cmd.List? ==> report == Listing(Shown(old(store.entries), cmd.statusFilter),
                                            old(store.entries) == [],
                                            Shown(old(store.entries), cmd.statusFilter) == [])
    ensures cmd.Clean? ==> report == TasksCleaned
    ensures cmd.Update? ==> report == StatusReport(
      if !IsValidStatus(cmd.newStatus) then InvalidStatus
      else if !HasKey(old(store.entries), cmd.taskId) then NoSuchTask
      else StatusChanged)
  {
    match cmd {
      case Add(description) =>
        var id := store.AddTask(description, now);
        report := TaskAdded(id);
      case Delete(taskId) =>
        var existed := store.DeleteTask(taskId);
        report := TaskDeleted(existed);
      case Clean =>
        store.CleanTasks();
        report := TasksCleaned;
      case Update(taskId, newStatus) =>
        var outcome := store.UpdateTaskStatus(taskId, newStatus, now);
        report := StatusReport(outcome);
      case List(statusFilter) =>
        var rows, noTasks, noMatch := ListTasks(store.entries, statusFilter);
        report := Listing(rows, noTasks, noMatch);
    }
    store.SaveTasks();
  }

  /** Every operation keeps the keys of the collection distinct. */
  lemma ApplyKeepsKeysDistinct(s: seq<Entry>, cmd: Command, now: Timestamp)
    requires DistinctKeys(s)
    ensures DistinctKeys(Apply(s, cmd, now))
  {
  }

  /**
   * After any invocation the keys are exactly 1..N, N the number of tasks
   * the operation left, over those tasks in their order.
   */
  lemma RunLeavesDenseIds(s: seq<Entry>, cmd: Command, now: Timestamp)
    ensures |Run(s, cmd, now)| == |Apply(s, cmd, now)|
    ensures IsDense(Run(s, cmd, now))
    ensures Tasks(Run(s, cmd, now)) == Tasks(Apply(s, cmd, now))
  {
    RenumberedSpec(Apply(s, cmd, now));
  }

  /**
   * Listing changes no task; on a collection as a save leaves it, listing
   * any number of times leaves the file exactly as it was.
   */
  lemma ListKeepsTasks(s: seq<Entry>, statusFilter: string, now: Timestamp)
    ensures Tasks(Run(s, List(statusFilter), now)) == Tasks(s)
    ensures IsDense(s) ==> Run(s, List(statusFilter), now) == s
  {
    RenumberedSpec(s);
    if IsDense(s) {
      RenumberedOfDense(s);
    }
  }

  /** A second `list` after a first one changes nothing. */
  lemma ListTwice(s: seq<Entry>, f: string, g: string, now: Timestamp, later: Timestamp)
    ensures Run(Run(s, List(f), now), List(g), later) == Run(s, List(f), now)
  {
    RenumberedIdempotent(s);
  }

  /**
   * On a collection as a save leaves it, `add` appends its todo task under
   * key N + 1, and the save keeps that key: the id it reports stays valid.
   */
  lemma AddOnSavedStore(s: seq<Entry>, description: string, now: Timestamp)
    requires IsDense(s)
    ensures NextId(s) == |s| + 1
    ensures Run(s, Add(description), now) == s + [Entry(|s| + 1, NewTask(description, now))]
  {
    AddedToDense(s, description, now);
    RenumberedOfDense(Added(s, description, now));
  }

  /**
   * IDs are not stable: deleting key k from a saved collection and saving
   * moves every later task down by one key and keeps the earlier ones.
   */
  lemma DeleteShiftsLaterIds(s: seq<Entry>, k: nat, now: Timestamp)
    requires IsDense(s) && 1 <= k <= |s|
    ensures |Run(s, Delete(k), now)| == |s| - 1
    ensures forall j :: 0 <= j < k - 1 ==> Run(s, Delete(k), now)[j] == s[j]
    ensures forall j :: k <= j < |s| ==> Run(s, Delete(k), now)[j - 1] == Entry(j, s[j].task)
  {
    assert s[k - 1].id == k;
    var i := Find(s, k).value;
    assert i == k - 1;
    var d := Deleted(s, k);
    assert d == s[..k - 1] + s[k..];
    RenumberedSpec(d);
    forall j | 0 <= j < k - 1 ensures Run(s, Delete(k), now)[j] == s[j] {
      assert s[j] == Entry(j + 1, s[j].task);
    }
  }

  /** Every task's update time is no earlier than its creation time. */
  predicate UpdatedNotBeforeCreated(s: seq<Entry>)
  {
    forall i :: 0 <= i < |s| ==> s[i].task.createdAt <= s[i].task.updatedAt
  }

  /** The clock reads no earlier than any task's creation time. */
  predicate ClockNotBehind(s: seq<Entry>, now: Timestamp)
  {
    forall i :: 0 <= i < |s| ==> s[i].task.createdAt <= now
  }

  /**
   * With a clock that does not run backwards, an invocation keeps every
   * task's update time at or after its creation time.
   */
  lemma RunKeepsTimestampsOrdered(s: seq<Entry>, cmd: Command, now: Timestamp)
    requires DistinctKeys(s)
    requires UpdatedNotBeforeCreated(s) && ClockNotBehind(s, now)
    ensures UpdatedNotBeforeCreated(Run(s, cmd, now))
  {
    var a := Apply(s, cmd, now);
    match cmd {
      case Add(description) =>
      case Delete(taskId) =>
        DeletedSpec(s, taskId);
        forall i | 0 <= i < |a| ensures a[i].task.createdAt <= a[i].task.updatedAt {
          assert a[i] in s;
        }
      case Clean =>
      case Update(taskId, newStatus) =>
        match ParseStatus(newStatus) {
          case None =>
          case Some(st) => UpdateValidStatus(s, taskId, st, now);
        }
      case List(_) =>
    }
    RenumberedSpec(a);
    var r := Run(s, cmd, now);
    forall i | 0 <= i < |r| ensures r[i].task.createdAt <= r[i].task.updatedAt {
      assert r[i].task == a[i].task;
    }
  }
}
