/** The Desktop copy's `TaskService`: a list of chores with a status string
    that moves "TODO" → "PENDING" (the kid asks) → "COMPLETED" (a parent or
    teacher approves and the kid is paid). The service is written against a
    task with a status string, which is how it is modelled here. */
module DeskTaskService {
  import opened Base
  import opened Seqs
  import opened Numbers
  import opened DeskUser
  import opened DeskUserService

  datatype Task = Task(
    id: int,
    taskName: string,
    description: string,
    dueDate: Date,
    points: int,
    status: string,
    frequency: string,
    assignedBy: string,
    kidId: string)

  function HasTaskId(id: int): Task -> bool
  {
    (t: Task) => t.id == id
  }

  function OfKid(kidId: string): Task -> bool
  {
    (t: Task) => t.kidId == kidId
  }

  /** The id `addTask` gives a new task: 1 for an empty list, otherwise one
      more than the id of the last task. */
  function NextId(tasks: seq<Task>): int
  {
    if tasks == [] then 1 else tasks[|tasks| - 1].id + 1
  }

  /** Ids grow along the list. Every list built by `addTask` alone has this
      shape, which makes ids unique. */
  predicate IdsIncreasing(tasks: seq<Task>)
  {
    forall i, j :: 0 <= i < j < |tasks| ==> tasks[i].id < tasks[j].id
  }

  /** A new task's id is larger than every id in an increasing list, so it
      is new, and the list stays increasing. */
  lemma NextIdIsNew(tasks: seq<Task>, t: Task)
    requires IdsIncreasing(tasks) && t.id == NextId(tasks)
    ensures forall i :: 0 <= i < |tasks| ==> tasks[i].id < t.id
    ensures IdsIncreasing(tasks + [t])
  {
    assert forall i :: 0 <= i < |tasks| ==> tasks[i].id <= tasks[|tasks| - 1].id by {
      forall i | 0 <= i < |tasks| ensures tasks[i].id <= tasks[|tasks| - 1].id {
        if i < |tasks| - 1 {
          assert tasks[i].id < tasks[|tasks| - 1].id;
        }
      }
    }
  }

  /** The task list after `requestCompletion(taskId)`: the first task with
      that id moves from "TODO" to "PENDING"; any other status, or an
      unknown id, leaves the list as it was. */
  function Requested(tasks: seq<Task>, taskId: int): (r: seq<Task>)
    ensures |r| == |tasks|
    ensures forall i :: 0 <= i < |tasks| ==> r[i] == tasks[i] || (tasks[i].status == "TODO" && r[i] == tasks[i].(status := "PENDING"))
  {
    match FirstIndex(tasks, HasTaskId(taskId))
    case None => tasks
    case Some(k) => if tasks[k].status == "TODO" then tasks[k := tasks[k].(status := "PENDING")] else tasks
  }

  /** The task `approveTask(taskId)` would pay for: the first task with
      that id, when it is "PENDING". */
  function Payable(tasks: seq<Task>, taskId: int): (r: Option<Task>)
    ensures r.Some? ==> r.value in tasks && r.value.id == taskId && r.value.status == "PENDING"
  {
    match FirstIndex(tasks, HasTaskId(taskId))
    case None => None
    case Some(k) => if tasks[k].status == "PENDING" then Some(tasks[k]) else None
  }

  /** The task list after `approveTask(taskId)`: the first task with that
      id moves from "PENDING" to "COMPLETED"; otherwise nothing changes. */
  function Approved(tasks: seq<Task>, taskId: int): (r: seq<Task>)
    ensures |r| == |tasks|
    ensures forall i :: 0 <= i < |tasks| ==> r[i] == tasks[i] || (tasks[i].status == "PENDING" && r[i] == tasks[i].(status := "COMPLETED"))
    ensures Payable(tasks, taskId).None? ==> r == tasks
  {
    match FirstIndex(tasks, HasTaskId(taskId))
    case None => tasks
    case Some(k) => if tasks[k].status == "PENDING" then tasks[k := tasks[k].(status := "COMPLETED")] else tasks
  }

  /** Asking twice is the same as asking once. */
  lemma RequestCompletionIdempotent(tasks: seq<Task>, taskId: int)
    ensures Requested(Requested(tasks, taskId), taskId) == Requested(tasks, taskId)
  {
    match FirstIndex(tasks, HasTaskId(taskId))
    case None =>
    case Some(k) =>
      var r := Requested(tasks, taskId);
      FirstIndexOfUpdate(tasks, taskId, k, r);
  }

  /** Approving a task that was just approved pays nothing and changes
      nothing: a task is paid for at most once. */
  lemma ApproveTwicePaysOnce(tasks: seq<Task>, taskId: int)
    ensures Payable(Approved(tasks, taskId), taskId).None?
    ensures Approved(Approved(tasks, taskId), taskId) == Approved(tasks, taskId)
  {
    match FirstIndex(tasks, HasTaskId(taskId))
    case None =>
    case Some(k) =>
      var r := Approved(tasks, taskId);
      FirstIndexOfUpdate(tasks, taskId, k, r);
  }

  /** Changing only the status of the first task with an id leaves it the
      first task with that id. */
  lemma FirstIndexOfUpdate(tasks: seq<Task>, taskId: int, k: nat, r: seq<Task>)
    requires FirstIndex(tasks, HasTaskId(taskId)) == Some(k)
    requires |r| == |tasks| && forall i :: 0 <= i < |tasks| ==> r[i].id == tasks[i].id
    ensures FirstIndex(r, HasTaskId(taskId)) == Some(k)
  {
  }

  /** Neither step changes an id, so both keep ids increasing. */
  lemma StepsKeepIds(tasks: seq<Task>, taskId: int)
    requires IdsIncreasing(tasks)
    ensures IdsIncreasing(Requested(tasks, taskId))
    ensures IdsIncreasing(Approved(tasks, taskId))
  {
    var r1 := Requested(tasks, taskId);
    var r2 := Approved(tasks, taskId);
    assert forall i :: 0 <= i < |tasks| ==> r1[i].id == tasks[i].id && r2[i].id == tasks[i].id;
  }

  class TaskService {
    var tasks: seq<Task>
    const userService: UserService

    /** The service over the list read from the tasks file (an empty list
        when there is no file). */
    constructor (u: UserService, loaded: seq<Task>)
      ensures userService == u && tasks == loaded
    {
      userService := u;
      tasks := loaded;
    }

    /** `addTask`: appends a "TODO" task with the next id. */
    method AddTask(kidId: string, name: string, desc: string, points: int, date: Date, freq: string, assignedBy: string)
      modifies this`tasks
      ensures tasks == old(tasks) + [Task(NextId(old(tasks)), name, desc, date, points, "TODO", freq, assignedBy, kidId)]
      ensures old(IdsIncreasing(tasks)) ==> IdsIncreasing(tasks)
    {
      var id := if |tasks| == 0 then 1 else tasks[|tasks| - 1].id + 1;
      var t := Task(id, name, desc, date, points, "TODO", freq, assignedBy, kidId);
      if IdsIncreasing(tasks) {
        NextIdIsNew(tasks, t);
      }
      tasks := tasks + [t];
    }

    /** `getTasksOfKid`: that kid's tasks, in list order. */
    method GetTasksOfKid(kidId: string) returns (result: seq<Task>)
      ensures result == Filter(tasks, OfKid(kidId))
    {
      result := [];
      var i := 0;
      while i < |tasks|
        invariant 0 <= i <= |tasks|
        invariant result == Filter(tasks[..i], OfKid(kidId))
      {
        FilterSnoc(tasks, i, OfKid(kidId));
        if tasks[i].kidId == kidId {
          result := result + [tasks[i]];
        }
        i := i + 1;
      }
      assert tasks[..|tasks|] == tasks;
    }

    /** The position of the first task with that id, as the service's loops
        find it. */
    method Find(taskId: int) returns (k: Option<nat>)
      ensures k == FirstIndex(tasks, HasTaskId(taskId))
    {
      var i := 0;
      while i < |tasks|
        invariant 0 <= i <= |tasks|
        invariant forall j :: 0 <= j < i ==> tasks[j].id != taskId
      {
        if tasks[i].id == taskId {
          FirstIndexIs(tasks, HasTaskId(taskId), i);
          return Some(i);
        }
        i := i + 1;
      }
      FirstIndexIs(tasks, HasTaskId(taskId), |tasks|);
      return None;
    }

    /** `requestCompletion`. */
    method RequestCompletion(taskId: int)
      modifies this`tasks
      ensures tasks == Requested(old(tasks), taskId)
    {
      var k := Find(taskId);
      if k.Some? && tasks[k.value].status == "TODO" {
        tasks := tasks[k.value := tasks[k.value].(status := "PENDING")];
      }
    }

    /** `approveTask`: a "PENDING" task becomes "COMPLETED", and the kid, if
        the user list has one with that id, is credited the task's points;
        every other user is left alone. */
    method ApproveTask(taskId: int)
      modifies this`tasks, userService.users
      ensures tasks == Approved(old(tasks), taskId)
      ensures userService.users == old(userService.users)
      ensures var pay := Payable(old(tasks), taskId);
        var kid := if pay.Some? then userService.GetUserById(pay.value.kidId) else None;
        (kid.Some? ==> kid.value.Wallet() == Earn(old(kid.value.Wallet()), pay.value.points))
        && forall v :: v in userService.users && (kid.None? || v != kid.value) ==> v.Wallet() == old(v.Wallet())
      ensures forall v :: v in userService.users ==> v.childrenIds == old(v.childrenIds) && v.classIds == old(v.classIds)
    {
      var k := Find(taskId);
      if k.Some? && tasks[k.value].status == "PENDING" {
        var t := tasks[k.value];
        tasks := tasks[k.value := t.(status := "COMPLETED")];
        var kid := userService.GetUserById(t.kidId);
        if kid.Some? {
          kid.value.AddPoints(t.points);
        }
      }
    }
  }
}
