/** The KidTask copy's `TaskManager`: the tasks by id and the children by
    id, and the chore life cycle PENDING -> COMPLETED -> APPROVED with the
    reward paid into the child's ledger on approval.

    The rules are stated as functions over the task map and the children's
    ledgers (`Books`); the class holds the task map and the `Child` objects
    themselves and is proved against those functions. `HashMap` iteration
    order is not modelled: listings are sets. */
module KTTaskManager {
  import opened Base
  import opened Seqs
  import opened Numbers
  import opened Failures
  import opened KTUser
  import opened KTTask
  import opened KTChild
  import L = Ledger

  /** The state approval works on: the tasks, and the ledger of every known
      child, both by id. */
  datatype Books = Books(tasks: map<string, TaskData>, ledgers: map<string, L.Ledger>)

  /** Every task is filed under its own id, as `put(task.getId(), task)`
      files it. */
  predicate Keyed(tasks: map<string, TaskData>)
  {
    forall k :: k in tasks ==> tasks[k].id == k
  }

  predicate LedgersValid(ledgers: map<string, L.Ledger>)
  {
    forall k :: k in ledgers ==> L.Valid(ledgers[k])
  }

  function TaskKey(t: TaskData): string
  {
    t.id
  }

  function ChildKey(c: Child): string
  {
    c.id
  }

  /** `approverRole == PARENT || approverRole == TEACHER`; null is neither. */
  predicate CanApprove(role: Option<UserRole>)
  {
    role == Some(PARENT) || role == Some(TEACHER)
  }

  /** `requireTask`. */
  function RequireTask(tasks: map<string, TaskData>, taskId: string): (r: Result<TaskData, Failure>)
    ensures r.Ok? <==> taskId in tasks
    ensures r.Ok? ==> r.value == tasks[taskId]
    ensures r.Err? ==> r.error == TaskNotFound("Task not found: " + taskId)
  {
    if taskId in tasks then Ok(tasks[taskId]) else Err(TaskNotFound("Task not found: " + taskId))
  }

  /** `listTasks(type)`: the tasks of one type. */
  function OfType(tasks: map<string, TaskData>, taskType: TaskType): (r: set<TaskData>)
    ensures forall t :: t in r <==> t in tasks.Values && t.taskType == taskType
  {
    set k | k in tasks && tasks[k].taskType == taskType :: tasks[k]
  }

  /** `getPendingTasksForChild`: the child's tasks still PENDING. */
  function PendingFor(tasks: map<string, TaskData>, childId: string): (r: set<TaskData>)
    ensures forall t :: t in r <==> t in tasks.Values && t.childId == childId && t.status == PENDING
  {
    set k | k in tasks && tasks[k].childId == childId && tasks[k].status == PENDING :: tasks[k]
  }

  /** `addTask`: the child must be known; the new task, built by the short
      `Task` constructor with a fresh id, is filed under that id. */
  function TaskAdded(tasks: map<string, TaskData>, childIds: set<string>, freshId: string,
                     title: Option<string>, description: Option<string>, dueDate: Option<Date>,
                     points: int, taskType: Option<TaskType>, childId: string)
    : (r: Result<(TaskData, map<string, TaskData>), Failure>)
    ensures childId !in childIds ==> r == Err(IllegalArgument("Unknown child: " + childId))
    ensures childId in childIds && NewTask(freshId, title, description, dueDate, points, taskType, Some(childId)).Err? ==>
      r == Err(NewTask(freshId, title, description, dueDate, points, taskType, Some(childId)).error)
    ensures r.Ok? ==>
      (&& r.value.0 == NewTask(freshId, title, description, dueDate, points, taskType, Some(childId)).value
       && r.value.0.id == freshId && r.value.0.childId == childId && r.value.0.status == PENDING
       && r.value.1 == tasks[freshId := r.value.0])
    ensures r.Ok? && Keyed(tasks) ==> Keyed(r.value.1)
  {
    if childId !in childIds then Err(IllegalArgument("Unknown child: " + childId))
    else
      match NewTask(freshId, title, description, dueDate, points, taskType, Some(childId))
      case Err(e) => Err(e)
      case Ok(t) => Ok((t, tasks[t.id := t]))
  }

  /** `markCompleted`: the task must exist, belong to the child and still
      be PENDING; it becomes COMPLETED. */
  function Completion(tasks: map<string, TaskData>, taskId: string, childId: string)
    : (r: Result<map<string, TaskData>, Failure>)
    ensures taskId !in tasks ==> r == Err(TaskNotFound("Task not found: " + taskId))
    ensures taskId in tasks && tasks[taskId].childId != childId ==>
      r == Err(IllegalArgument("Task does not belong to child " + childId))
    ensures taskId in tasks && tasks[taskId].childId == childId && tasks[taskId].status != PENDING ==>
      r == Err(IllegalState("Task already completed or approved"))
    ensures r.Ok? <==> taskId in tasks && tasks[taskId].childId == childId && tasks[taskId].status == PENDING
    ensures r.Ok? ==> r.value == tasks[taskId := tasks[taskId].(status := COMPLETED)]
  {
    match RequireTask(tasks, taskId)
    case Err(e) => Err(e)
    case Ok(t) =>
      if t.childId != childId then Err(IllegalArgument("Task does not belong to child " + childId))
      else if t.status != PENDING then Err(IllegalState("Task already completed or approved"))
      else Ok(tasks[taskId := t.(status := COMPLETED)])
  }

  /** The first half of `approveTask`, up to the child lookup: the role,
      the task and its status are checked, then the task is set APPROVED
      before the rating is checked, so a refused rating still leaves it
      approved; an accepted rating is stored on the task. */
  function Settlement(tasks: map<string, TaskData>, taskId: string, role: Option<UserRole>, rating: real)
    : (r: (Outcome<Failure>, map<string, TaskData>))
    ensures !CanApprove(role) ==> r == (Fail(IllegalArgument("Only parent or teacher can approve")), tasks)
    ensures CanApprove(role) && taskId !in tasks ==> r == (Fail(TaskNotFound("Task not found: " + taskId)), tasks)
    ensures CanApprove(role) && taskId in tasks && tasks[taskId].status != COMPLETED ==>
      r == (Fail(IllegalState("Task must be completed before approval")), tasks)
    ensures r.0.Pass? <==> CanApprove(role) && taskId in tasks && tasks[taskId].status == COMPLETED && 1.0 <= rating <= 5.0
    ensures r.1.Keys == tasks.Keys
    ensures forall k :: k in tasks && k != taskId ==> r.1[k] == tasks[k]
    ensures r.0.Pass? ==> r.1[taskId] == tasks[taskId].(status := APPROVED, rating := Some(rating))
  {
    if !CanApprove(role) then (Fail(IllegalArgument("Only parent or teacher can approve")), tasks)
    else match RequireTask(tasks, taskId)
    case Err(e) => (Fail(e), tasks)
    case Ok(t) =>
      if t.status != COMPLETED then (Fail(IllegalState("Task must be completed before approval")), tasks)
      else
        var approved := tasks[taskId := t.(status := APPROVED)];
        match CheckRating(Some(rating))
        case Fail(e) => (Fail(e), approved)
        case Pass => (Pass, tasks[taskId := t.(status := APPROVED, rating := Some(rating))])
  }

  /** `approveTask`: `Settlement`, then the child is looked up, and for a
      known child the rating is recorded and the points credited. An
      unknown child fails after the task was approved and rated, with
      nothing paid. */
  function Approval(b: Books, taskId: string, role: Option<UserRole>, rating: real): (r: (Outcome<Failure>, Books))
    ensures !CanApprove(role) ==> r == (Fail(IllegalArgument("Only parent or teacher can approve")), b)
    ensures CanApprove(role) && taskId !in b.tasks ==> r == (Fail(TaskNotFound("Task not found: " + taskId)), b)
    ensures CanApprove(role) && taskId in b.tasks && b.tasks[taskId].status != COMPLETED ==>
      r == (Fail(IllegalState("Task must be completed before approval")), b)
    ensures r.0.Pass? <==>
      (&& CanApprove(role) && taskId in b.tasks && b.tasks[taskId].status == COMPLETED
       && 1.0 <= rating <= 5.0 && b.tasks[taskId].childId in b.ledgers && b.tasks[taskId].points >= 0)
    ensures r.1.tasks.Keys == b.tasks.Keys && r.1.ledgers.Keys == b.ledgers.Keys
    ensures forall k :: k in b.tasks && k != taskId ==> r.1.tasks[k] == b.tasks[k]
    ensures r.0.Pass? ==>
      var t := b.tasks[taskId];
      && r.1.tasks[taskId] == t.(status := APPROVED, rating := Some(rating))
      && r.1.ledgers == b.ledgers[t.childId := r.1.ledgers[t.childId]]
      && r.1.ledgers[t.childId].points == b.ledgers[t.childId].points + t.points
      && r.1.ledgers[t.childId].ratingSum == b.ledgers[t.childId].ratingSum + rating
      && r.1.ledgers[t.childId].ratingCount == b.ledgers[t.childId].ratingCount + 1
  {
    var (settled, tasks) := Settlement(b.tasks, taskId, role, rating);
    if settled.Fail? then (settled, b.(tasks := tasks))
    else
      var t := b.tasks[taskId];
      if t.childId !in b.ledgers then (Fail(IllegalArgument("Unknown child: " + t.childId)), b.(tasks := tasks))
      else
        var (outcome, paid) := Reward(b.ledgers[t.childId], rating, t.points);
        (outcome, Books(tasks, b.ledgers[t.childId := paid]))
  }

  /** `child.recordRating(rating)` then `child.addPoints(points)`: the
      outcome and the ledger after, which keeps the recorded rating when
      the credit throws. */
  function Reward(l: L.Ledger, rating: real, points: int): (r: (Outcome<Failure>, L.Ledger))
    ensures r.0.Pass? <==> 1.0 <= rating <= 5.0 && points >= 0
    ensures r.0.Pass? ==>
      (&& r.1.points == l.points + points && r.1.level == L.LevelForPoints(r.1.points)
       && r.1.ratingSum == l.ratingSum + rating && r.1.ratingCount == l.ratingCount + 1)
    ensures L.Valid(l) ==> L.Valid(r.1)
  {
    match L.RecordRating(l, rating)
    case Err(e) => (Fail(Reason(e)), l)
    case Ok(recorded) =>
      match L.Credit(recorded, points)
      case Err(e) => (Fail(Reason(e)), recorded)
      case Ok(credited) => (Pass, credited)
  }

  /** Filing a new task adds it to its child's pending tasks and to the
      tasks of its type, and takes nothing away from either. */
  lemma AddedTaskListed(tasks: map<string, TaskData>, childIds: set<string>, freshId: string,
                        title: Option<string>, description: Option<string>, dueDate: Option<Date>,
                        points: int, taskType: Option<TaskType>, childId: string)
    requires Keyed(tasks) && freshId !in tasks
    requires TaskAdded(tasks, childIds, freshId, title, description, dueDate, points, taskType, childId).Ok?
    ensures var (t, after) := TaskAdded(tasks, childIds, freshId, title, description, dueDate, points, taskType, childId).value;
      && PendingFor(after, childId) == PendingFor(tasks, childId) + {t}
      && OfType(after, t.taskType) == OfType(tasks, t.taskType) + {t}
  {
    var (t, after) := TaskAdded(tasks, childIds, freshId, title, description, dueDate, points, taskType, childId).value;
    assert after.Values == tasks.Values + {t} by {
      forall u | u in after.Values ensures u in tasks.Values + {t} {
        var k :| k in after && after[k] == u;
        if k != freshId {
          assert tasks[k] == u;
        }
      }
      forall u | u in tasks.Values ensures u in after.Values {
        var k :| k in tasks && tasks[k] == u;
        assert k != freshId && after[k] == u;
      }
      assert after[freshId] == t;
    }
  }

  /** Completing a task takes exactly that task out of the child's pending
      list. */
  lemma CompletionLeavesPending(tasks: map<string, TaskData>, taskId: string, childId: string)
    requires Keyed(tasks)
    requires Completion(tasks, taskId, childId).Ok?
    ensures PendingFor(Completion(tasks, taskId, childId).value, childId) == PendingFor(tasks, childId) - {tasks[taskId]}
  {
    var after := Completion(tasks, taskId, childId).value;
    var t := tasks[taskId];
    forall u | u in PendingFor(after, childId) ensures u in PendingFor(tasks, childId) - {t} {
      var k :| k in after && after[k] == u;
      assert k != taskId;
      assert tasks[k] == u;
      assert u.id == k;
    }
    forall u | u in PendingFor(tasks, childId) - {t} ensures u in PendingFor(after, childId) {
      var k :| k in tasks && tasks[k] == u;
      assert u.id == k && t.id == taskId;
      assert after[k] == u;
    }
  }

  /** Approval never pays for the same task twice: once it has passed, a
      second approval is refused for the task's status and changes
      nothing. */
  lemma ApprovalPaysOnce(b: Books, taskId: string, role: Option<UserRole>, rating: real,
                         role2: Option<UserRole>, rating2: real)
    requires Approval(b, taskId, role, rating).0.Pass?
    requires CanApprove(role2)
    ensures var after := Approval(b, taskId, role, rating).1;
      Approval(after, taskId, role2, rating2) == (Fail(IllegalState("Task must be completed before approval")), after)
  {
  }

  /** The defect of the statement order: a refused rating is reported, but
      the task stays APPROVED with its old rating and nothing paid, and no
      later approval can pay for it. */
  lemma RefusedRatingStillApproves(b: Books, taskId: string, role: Option<UserRole>, rating: real,
                                   rating2: real)
    requires CanApprove(role) && taskId in b.tasks && b.tasks[taskId].status == COMPLETED
    requires rating < 1.0 || rating > 5.0
    ensures var (r, after) := Approval(b, taskId, role, rating);
      && r == Fail(IllegalArgument("Rating must be between 1 and 5"))
      && after.tasks == b.tasks[taskId := b.tasks[taskId].(status := APPROVED)]
      && after.ledgers == b.ledgers
      && Approval(after, taskId, role, rating2).0 == Fail(IllegalState("Task must be completed before approval"))
  {
  }

  /** The same for a task whose child is not known: it is approved and
      rated, the call fails, and no ledger changes. */
  lemma UnknownChildStillApproves(b: Books, taskId: string, role: Option<UserRole>, rating: real)
    requires CanApprove(role) && taskId in b.tasks && b.tasks[taskId].status == COMPLETED
    requires 1.0 <= rating <= 5.0 && b.tasks[taskId].childId !in b.ledgers
    ensures var (r, after) := Approval(b, taskId, role, rating);
      && r == Fail(IllegalArgument("Unknown child: " + b.tasks[taskId].childId))
      && after.tasks[taskId].status == APPROVED && after.tasks[taskId].rating == Some(rating)
      && after.ledgers == b.ledgers
  {
  }

  /** Approval keeps every task under its id and every ledger valid. */
  lemma ApprovalKeepsInvariants(b: Books, taskId: string, role: Option<UserRole>, rating: real)
    requires Keyed(b.tasks) && LedgersValid(b.ledgers)
    ensures var after := Approval(b, taskId, role, rating).1;
      Keyed(after.tasks) && LedgersValid(after.ledgers)
  {
    var after := Approval(b, taskId, role, rating).1;
    if CanApprove(role) && taskId in b.tasks && b.tasks[taskId].status == COMPLETED && 1.0 <= rating <= 5.0
       && b.tasks[taskId].childId in b.ledgers {
      var c := b.tasks[taskId].childId;
      var recorded := L.RecordRating(b.ledgers[c], rating).value;
      assert L.Valid(recorded);
    }
  }

  /** The whole life cycle of one valid task: completing it as its child
      and then approving it as a parent or teacher with a rating from 1 to
      5 pays its points and records the rating. */
  lemma CompleteThenApprove(b: Books, taskId: string, role: Option<UserRole>, rating: real)
    requires taskId in b.tasks && Valid(b.tasks[taskId]) && b.tasks[taskId].status == PENDING
    requires b.tasks[taskId].childId in b.ledgers
    requires CanApprove(role) && 1.0 <= rating <= 5.0
    ensures var t := b.tasks[taskId];
      var completed := Completion(b.tasks, taskId, t.childId);
      && completed.Ok?
      && var (r, after) := Approval(b.(tasks := completed.value), taskId, role, rating);
      && r == Pass
      && after.tasks[taskId] == t.(status := APPROVED, rating := Some(rating))
      && after.ledgers[t.childId].points == b.ledgers[t.childId].points + t.points
      && after.ledgers[t.childId].ratingCount == b.ledgers[t.childId].ratingCount + 1
  {
  }

  /** `TaskManager`: the tasks by id as values, and the live `Child`
      objects by id, whose ledgers approval updates in place. Saving to
      disk after each change is not modelled. */
  class TaskManager {
    var tasks: map<string, TaskData>
    var children: map<string, Child>

    ghost predicate Valid()
      reads this
    {
      Keyed(tasks) && forall k :: k in children ==> children[k].id == k
    }

    /** The children's ledgers, by id. */
    function Ledgers(): map<string, L.Ledger>
      reads this, children.Values
    {
      map k | k in children :: children[k].Ledger()
    }

    /** `TaskManager(dataManager)`: `load()` files the loaded tasks and
        children by id, a later one replacing an earlier one with the same
        id. */
    constructor (loadedTasks: seq<TaskData>, loadedChildren: seq<Child>)
      ensures Valid()
      ensures tasks == IndexBy(loadedTasks, TaskKey) && children == IndexBy(loadedChildren, ChildKey)
    {
      var t := IndexAll(loadedTasks, TaskKey);
      var c := IndexAll(loadedChildren, ChildKey);
      tasks := t;
      children := c;
    }

    /** `addChildIfMissing`: `putIfAbsent`. */
    method AddChildIfMissing(child: Child)
      requires Valid()
      modifies this`children
      ensures Valid()
      ensures child.id in old(children) ==> children == old(children)
      ensures child.id !in old(children) ==> children == old(children)[child.id := child]
    {
      if child.id !in children {
        children := children[child.id := child];
      }
    }

    /** `addTask`. */
    method AddTask(freshId: string, title: Option<string>, description: Option<string>, dueDate: Option<Date>,
                   points: int, taskType: Option<TaskType>, childId: string)
      returns (r: Result<TaskData, Failure>)
      requires Valid()
      modifies this`tasks
      ensures Valid()
      ensures var a := TaskAdded(old(tasks), children.Keys, freshId, title, description, dueDate, points, taskType, childId);
        && (a.Err? ==> r == Err(a.error) && tasks == old(tasks))
        && (a.Ok? ==> r == Ok(a.value.0) && tasks == a.value.1)
    {
      if childId !in children {
        return Err(IllegalArgument("Unknown child: " + childId));
      }
      var t := NewTask(freshId, title, description, dueDate, points, taskType, Some(childId));
      if t.Err? {
        return Err(t.error);
      }
      tasks := tasks[t.value.id := t.value];
      return Ok(t.value);
    }

    /** `listTasks()`. */
    function ListTasks(): set<TaskData>
      reads this
    {
      tasks.Values
    }

    /** `listTasks(type)`. */
    function ListTasksOfType(taskType: TaskType): set<TaskData>
      reads this
    {
      OfType(tasks, taskType)
    }

    /** `getPendingTasksForChild`. */
    function PendingTasksFor(childId: string): set<TaskData>
      reads this
    {
      PendingFor(tasks, childId)
    }

    /** `getChild`: the live object, or the failure for an unknown id. */
    function GetChild(childId: string): (r: Result<Child, Failure>)
      requires Valid()
      reads this
      ensures r.Ok? <==> childId in children
      ensures r.Ok? ==> r.value.id == childId && r.value in children.Values
      ensures r.Err? ==> r.error == IllegalArgument("Unknown child: " + childId)
    {
      if childId in children then Ok(children[childId]) else Err(IllegalArgument("Unknown child: " + childId))
    }

    /** `markCompleted`. */
    method MarkCompleted(taskId: string, childId: string) returns (r: Outcome<Failure>)
      requires Valid()
      modifies this`tasks
      ensures Valid()
      ensures var c := Completion(old(tasks), taskId, childId);
        && (c.Err? ==> r == Fail(c.error) && tasks == old(tasks))
        && (c.Ok? ==> r == Pass && tasks == c.value)
    {
      var t := RequireTask(tasks, taskId);
      if t.Err? {
        return Fail(t.error);
      }
      var task := t.value;
      if task.childId != childId {
        return Fail(IllegalArgument("Task does not belong to child " + childId));
      }
      if task.status != PENDING {
        return Fail(IllegalState("Task already completed or approved"));
      }
      tasks := tasks[taskId := task.(status := COMPLETED)];
      return Pass;
    }

    /** `approveTask`: the task map and the rated child's ledger change as
        `Approval` says, partial updates included; no other child changes. */
    method ApproveTask(taskId: string, role: Option<UserRole>, rating: real) returns (r: Outcome<Failure>)
      requires Valid()
      modifies this`tasks, children.Values
      ensures Valid() && children == old(children)
      ensures var (settled, after) := Settlement(old(tasks), taskId, role, rating);
        && tasks == after
        && (settled.Fail? ==> r == settled)
        && (settled.Pass? ==>
              var t := old(tasks)[taskId];
              && (t.childId !in children ==> r == Fail(IllegalArgument("Unknown child: " + t.childId)))
              && (t.childId in children ==>
                    (r, children[t.childId].Ledger()) == Reward(old(children[t.childId].Ledger()), rating, t.points)))
      ensures forall k :: k in children && (!Settlement(old(tasks), taskId, role, rating).0.Pass? || k != old(tasks)[taskId].childId) ==>
        children[k].Ledger() == old(children[k].Ledger())
    {
      r := SettleTask(taskId, role, rating);
      if r.Fail? {
        return;
      }
      var task := tasks[taskId];
      var c := GetChild(task.childId);
      if c.Err? {
        return Fail(c.error);
      }
      var child := c.value;
      r := PayChild(child, rating, task.points);
    }

    /** The statements of `approveTask` before `getChild`. */
    method SettleTask(taskId: string, role: Option<UserRole>, rating: real) returns (r: Outcome<Failure>)
      requires Valid()
      modifies this`tasks
      ensures Valid()
      ensures (r, tasks) == Settlement(old(tasks), taskId, role, rating)
    {
      if !CanApprove(role) {
        return Fail(IllegalArgument("Only parent or teacher can approve"));
      }
      var found := RequireTask(tasks, taskId);
      if found.Err? {
        return Fail(found.error);
      }
      var task := found.value;
      if task.status != COMPLETED {
        return Fail(IllegalState("Task must be completed before approval"));
      }
      tasks := tasks[taskId := task.(status := APPROVED)];
      r := CheckRating(Some(rating));
      if r.Fail? {
        return;
      }
      tasks := tasks[taskId := task.(status := APPROVED, rating := Some(rating))];
      assert tasks == old(tasks)[taskId := task.(status := APPROVED, rating := Some(rating))];
    }
  }

  /** The two calls on the child at the end of `approveTask`. */
  method PayChild(child: Child, rating: real, points: int) returns (r: Outcome<Failure>)
    modifies child
    ensures (r, child.Ledger()) == Reward(old(child.Ledger()), rating, points)
  {
    r := child.RecordRating(rating);
    if r.Pass? {
      r := child.AddPoints(points);
    }
  }
}
