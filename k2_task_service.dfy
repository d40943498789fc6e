/** The kid_task2 `TaskService`: validated task creation, listing, and the
    NEW → PENDING_APPROVAL → APPROVED life cycle, where approval pays the
    child the task's points and records the rating. The two repositories
    are modelled by the lists they hold; each operation either fails and
    saves nothing, or saves the updated lists. */
module K2TaskService {
  import opened Base
  import opened Text
  import opened Failures
  import opened Seqs
  import opened Numbers
  import opened K2Child
  import opened K2Task
  import opened K2Lookup
  import L = Ledger

  function TaskHasId(id: string): TaskData -> bool
  {
    (t: TaskData) => t.id == id
  }

  function OfType(tt: TaskType): TaskData -> bool
  {
    (t: TaskData) => t.taskType == tt
  }

  /** `findTaskById`: the position of the first task with that id. */
  function FindTask(tasks: seq<TaskData>, id: string): (k: Option<nat>)
    ensures k.Some? ==> k.value < |tasks| && tasks[k.value].id == id
    ensures k.Some? ==> forall j :: 0 <= j < k.value ==> tasks[j].id != id
    ensures k.None? <==> forall j :: 0 <= j < |tasks| ==> tasks[j].id != id
  {
    FirstIndex(tasks, TaskHasId(id))
  }

  /** `validateTitle`. */
  function CheckTitle(title: Option<string>): (r: Outcome<Failure>)
    ensures r.Pass? <==> title.Some? && !TrimsToEmpty(title.value) && |title.value| <= 200
    ensures title.None? || TrimsToEmpty(title.value) ==> r == Fail(Validation("Task title cannot be null or empty"))
    ensures title.Some? && !TrimsToEmpty(title.value) && |title.value| > 200 ==>
      r == Fail(Validation("Task title cannot exceed 200 characters"))
  {
    if title.None? || TrimsToEmpty(title.value) then Fail(Validation("Task title cannot be null or empty"))
    else if |title.value| > 200 then Fail(Validation("Task title cannot exceed 200 characters"))
    else Pass
  }

  /** `validateDescription`: a null description is allowed. */
  function CheckDescription(description: Option<string>): (r: Outcome<Failure>)
    ensures r.Pass? <==> description.None? || |description.value| <= 1000
    ensures r.Fail? ==> r.error == Validation("Task description cannot exceed 1000 characters")
  {
    if description.Some? && |description.value| > 1000 then Fail(Validation("Task description cannot exceed 1000 characters"))
    else Pass
  }

  /** `validateDueDate`: any date, past ones included, but not null. */
  function CheckDueDate(dueDate: Option<Date>): (r: Outcome<Failure>)
    ensures r.Pass? <==> dueDate.Some?
    ensures r.Fail? ==> r.error == Validation("Due date cannot be null")
  {
    if dueDate.None? then Fail(Validation("Due date cannot be null")) else Pass
  }

  /** `validatePoints`: 1 to 1000. */
  function CheckPoints(points: int): (r: Outcome<Failure>)
    ensures r.Pass? <==> 1 <= points <= 1000
    ensures points <= 0 ==> r == Fail(Validation("Points must be positive"))
    ensures points > 1000 ==> r == Fail(Validation("Points cannot exceed 1000"))
  {
    if points <= 0 then Fail(Validation("Points must be positive"))
    else if points > 1000 then Fail(Validation("Points cannot exceed 1000"))
    else Pass
  }

  /** `validateRating`: 1.0 to 5.0 inclusive. */
  function CheckRating(rating: real): (r: Outcome<Failure>)
    ensures r.Pass? <==> 1.0 <= rating <= 5.0
    ensures r.Fail? ==> r.error == Validation("Rating must be between 1.0 and 5.0")
  {
    if rating < 1.0 || rating > 5.0 then Fail(Validation("Rating must be between 1.0 and 5.0")) else Pass
  }

  /** `validateApproverRole`: a parent or a teacher; null is refused. */
  function CheckApproverRole(role: Option<Role>): (r: Outcome<Failure>)
    ensures r.Pass? <==> role == Some(PARENT) || role == Some(TEACHER)
    ensures r.Fail? ==> r.error == Validation("Only PARENT or TEACHER can approve tasks")
  {
    if role != Some(PARENT) && role != Some(TEACHER) then Fail(Validation("Only PARENT or TEACHER can approve tasks"))
    else Pass
  }

  /** `validateTaskExists`. */
  function CheckTaskExists(tasks: seq<TaskData>, taskId: Option<string>): (r: Outcome<Failure>)
    ensures r.Pass? <==> !MissingId(taskId) && exists j :: 0 <= j < |tasks| && tasks[j].id == taskId.value
    ensures MissingId(taskId) ==> r == Fail(Validation("Task ID cannot be null or empty"))
    ensures !MissingId(taskId) && r.Fail? ==> r == Fail(NotFound("Task not found: " + taskId.value))
  {
    if MissingId(taskId) then Fail(Validation("Task ID cannot be null or empty"))
    else if FindTask(tasks, taskId.value).None? then Fail(NotFound("Task not found: " + taskId.value))
    else Pass
  }

  /** The checks of `addTask`, in the order it makes them; the first that
      fails decides the exception. */
  function CheckNewTask(users: seq<Account>, title: Option<string>, description: Option<string>,
                        dueDate: Option<Date>, points: int, childId: Option<string>): (r: Outcome<Failure>)
    ensures r.Pass? <==>
      (CheckTitle(title).Pass? && CheckDescription(description).Pass? && CheckDueDate(dueDate).Pass?
       && CheckPoints(points).Pass? && CheckChildExists(users, childId).Pass?)
    ensures CheckTitle(title).Fail? ==> r == CheckTitle(title)
    ensures CheckTitle(title).Pass? && CheckDescription(description).Fail? ==> r == CheckDescription(description)
    ensures CheckTitle(title).Pass? && CheckDescription(description).Pass? && CheckDueDate(dueDate).Fail? ==>
      r == CheckDueDate(dueDate)
    ensures (CheckTitle(title).Pass? && CheckDescription(description).Pass? && CheckDueDate(dueDate).Pass?
             && CheckPoints(points).Fail?) ==> r == CheckPoints(points)
    ensures (r.Fail? && CheckPoints(points).Pass? && CheckDueDate(dueDate).Pass? && CheckDescription(description).Pass?
             && CheckTitle(title).Pass?) ==> r == CheckChildExists(users, childId)
  {
    if CheckTitle(title).Fail? then CheckTitle(title)
    else if CheckDescription(description).Fail? then CheckDescription(description)
    else if CheckDueDate(dueDate).Fail? then CheckDueDate(dueDate)
    else if CheckPoints(points).Fail? then CheckPoints(points)
    else CheckChildExists(users, childId)
  }

  /** `addTask`: the task created after the checks pass; a null type
      passes the checks and fails in the `Task` constructor. */
  function NewTaskFor(users: seq<Account>, freshId: string, title: Option<string>, description: Option<string>,
                      dueDate: Option<Date>, points: int, taskType: Option<TaskType>, childId: Option<string>): (r: Result<TaskData, Failure>)
    ensures CheckNewTask(users, title, description, dueDate, points, childId).Fail? ==>
      r == Err(CheckNewTask(users, title, description, dueDate, points, childId).error)
    ensures CheckNewTask(users, title, description, dueDate, points, childId).Pass? && taskType.None? ==>
      r == Err(NullPointer("Type cannot be null"))
    ensures r.Ok? ==> taskType.Some? && r.value == TaskData(freshId, title.value, Described(description), dueDate.value,
      points, NEW, taskType.value, childId.value, None)
    ensures r.Ok? ==>
      (1 <= r.value.points <= 1000 && !TrimsToEmpty(r.value.title) && |r.value.title| <= 200
       && |r.value.description| <= 1000)
    ensures r.Ok? ==> exists j :: 0 <= j < |users| && users[j].id == r.value.childId && users[j].RoleOf() == CHILD
  {
    var check := CheckNewTask(users, title, description, dueDate, points, childId);
    if check.Fail? then Err(check.error)
    else NewTask(freshId, title, description, dueDate, points, taskType, childId)
  }

  /** `completeTask`: the task list after a child marks a task done. */
  function Complete(tasks: seq<TaskData>, users: seq<Account>, taskId: Option<string>, childId: Option<string>)
    : (r: Result<seq<TaskData>, Failure>)
    ensures CheckTaskExists(tasks, taskId).Fail? ==> r == Err(CheckTaskExists(tasks, taskId).error)
    ensures CheckTaskExists(tasks, taskId).Pass? && CheckChildExists(users, childId).Fail? ==>
      r == Err(CheckChildExists(users, childId).error)
    ensures r.Ok? <==>
      (CheckTaskExists(tasks, taskId).Pass? && CheckChildExists(users, childId).Pass?
       && var k := FindTask(tasks, taskId.value).value;
       tasks[k].childId == childId.value && tasks[k].status == NEW)
    ensures r.Ok? ==>
      var k := FindTask(tasks, taskId.value).value;
      r.value == tasks[k := tasks[k].(status := PENDING_APPROVAL)]
  {
    if CheckTaskExists(tasks, taskId).Fail? then Err(CheckTaskExists(tasks, taskId).error)
    else if CheckChildExists(users, childId).Fail? then Err(CheckChildExists(users, childId).error)
    else
      var k := FindTask(tasks, taskId.value).value;
      var task := tasks[k];
      if task.childId != childId.value then Err(Validation("Task does not belong to child: " + childId.value))
      else if task.status != NEW then Err(Validation("Task is not in NEW status. Current status: " + StatusName(task.status)))
      else Ok(tasks[k := task.(status := PENDING_APPROVAL)])
  }

  /** `approveAndRate`: the task and user lists after a parent or teacher
      approves a task: the task becomes APPROVED with the rating, and the
      child named on it is credited the task's points and records the
      rating. */
  function Approval(tasks: seq<TaskData>, users: seq<Account>, taskId: Option<string>, rating: real, role: Option<Role>)
    : (r: Result<(seq<TaskData>, seq<Account>), Failure>)
    ensures CheckRating(rating).Fail? ==> r == Err(CheckRating(rating).error)
    ensures CheckRating(rating).Pass? && CheckApproverRole(role).Fail? ==> r == Err(CheckApproverRole(role).error)
    ensures CheckRating(rating).Pass? && CheckApproverRole(role).Pass? && CheckTaskExists(tasks, taskId).Fail? ==>
      r == Err(CheckTaskExists(tasks, taskId).error)
    ensures r.Ok? ==> CheckRating(rating).Pass? && CheckApproverRole(role).Pass? && CheckTaskExists(tasks, taskId).Pass?
    ensures r.Ok? ==>
      var k := FindTask(tasks, taskId.value).value;
      var task := tasks[k];
      && task.status == PENDING_APPROVAL
      && r.value.0 == tasks[k := task.(status := APPROVED, rating := Some(rating))]
      && FindAccount(users, task.childId).Some?
      && var c := FindAccount(users, task.childId).value;
      && users[c].Kid?
      && L.Credit(users[c].ledger, task.points).Ok?
      && L.RecordRating(L.Credit(users[c].ledger, task.points).value, rating).Ok?
      && r.value.1 == users[c := users[c].(ledger := L.RecordRating(L.Credit(users[c].ledger, task.points).value, rating).value)]
  {
    if CheckRating(rating).Fail? then Err(CheckRating(rating).error)
    else if CheckApproverRole(role).Fail? then Err(CheckApproverRole(role).error)
    else if CheckTaskExists(tasks, taskId).Fail? then Err(CheckTaskExists(tasks, taskId).error)
    else
      var k := FindTask(tasks, taskId.value).value;
      var task := tasks[k];
      if task.status != PENDING_APPROVAL then
        Err(Validation("Task is not in PENDING_APPROVAL status. Current status: " + StatusName(task.status)))
      else match FindAccount(users, task.childId)
        case None => Err(Validation("User is not a child: " + task.childId))
        case Some(c) =>
          if !users[c].Kid? then Err(Validation("User is not a child: " + task.childId))
          else match L.Credit(users[c].ledger, task.points)
            case Err(e) => Err(K2Child.Reason(e))
            case Ok(credited) =>
              var rated := L.RecordRating(credited, rating).value;
              Ok((tasks[k := task.(status := APPROVED, rating := Some(rating))], users[c := users[c].(ledger := rated)]))
  }

  /** On approval the child's balance grows by exactly the task's points,
      one rating is added to the sum and count, and nobody else changes. */
  lemma ApprovalPays(tasks: seq<TaskData>, users: seq<Account>, taskId: Option<string>, rating: real, role: Option<Role>)
    requires Approval(tasks, users, taskId, rating, role).Ok?
    ensures var k := FindTask(tasks, taskId.value).value;
      var c := FindAccount(users, tasks[k].childId).value;
      var after := Approval(tasks, users, taskId, rating, role).value.1;
      && |after| == |users|
      && after[c].ledger.points == users[c].ledger.points + tasks[k].points
      && after[c].ledger.ratingSum == users[c].ledger.ratingSum + rating
      && after[c].ledger.ratingCount == users[c].ledger.ratingCount + 1
      && after[c].ledger.level == L.LevelForPoints(after[c].ledger.points)
      && (forall j :: 0 <= j < |users| && j != c ==> after[j] == users[j])
  {
  }

  /** A task is paid for once: after an approval, approving the same task
      again fails, whatever rating and role are given. */
  lemma ApproveTwiceFails(tasks: seq<TaskData>, users: seq<Account>, taskId: Option<string>, rating: real, role: Option<Role>,
                          rating2: real, role2: Option<Role>)
    requires Approval(tasks, users, taskId, rating, role).Ok?
    ensures var s := Approval(tasks, users, taskId, rating, role).value;
      Approval(s.0, s.1, taskId, rating2, role2).Err?
  {
    var k := FindTask(tasks, taskId.value).value;
    var s := Approval(tasks, users, taskId, rating, role).value;
    FirstIndexUpdate(tasks, TaskHasId(taskId.value), k, tasks[k].(status := APPROVED, rating := Some(rating)));
  }

  /** A task approved straight from NEW, skipping `completeTask`, is
      refused. */
  lemma ApproveNeedsCompletion(tasks: seq<TaskData>, users: seq<Account>, taskId: Option<string>, rating: real, role: Option<Role>)
    requires !MissingId(taskId) && FindTask(tasks, taskId.value).Some?
    requires tasks[FindTask(tasks, taskId.value).value].status == NEW
    ensures Approval(tasks, users, taskId, rating, role).Err?
  {
  }

  /** The life cycle goes through: a task the child completed can then be
      approved with a valid rating and role, when the task's child is a
      `Child` and the task's points are not negative. */
  lemma CompleteThenApprove(tasks: seq<TaskData>, users: seq<Account>, taskId: Option<string>, childId: Option<string>,
                            rating: real, role: Option<Role>)
    requires Complete(tasks, users, taskId, childId).Ok?
    requires 1.0 <= rating <= 5.0 && (role == Some(PARENT) || role == Some(TEACHER))
    requires tasks[FindTask(tasks, taskId.value).value].points >= 0
    requires users[FindAccount(users, childId.value).value].Kid?
    ensures Approval(Complete(tasks, users, taskId, childId).value, users, taskId, rating, role).Ok?
  {
    var k := FindTask(tasks, taskId.value).value;
    var after := Complete(tasks, users, taskId, childId).value;
    FirstIndexUpdate(tasks, TaskHasId(taskId.value), k, tasks[k].(status := PENDING_APPROVAL));
    assert after[k].childId == childId.value;
  }

  /** Completing a task twice fails the second time. */
  lemma CompleteTwiceFails(tasks: seq<TaskData>, users: seq<Account>, taskId: Option<string>, childId: Option<string>)
    requires Complete(tasks, users, taskId, childId).Ok?
    ensures Complete(Complete(tasks, users, taskId, childId).value, users, taskId, childId).Err?
  {
    var k := FindTask(tasks, taskId.value).value;
    FirstIndexUpdate(tasks, TaskHasId(taskId.value), k, tasks[k].(status := PENDING_APPROVAL));
  }

  class TaskService {
    /** What the task and user repositories hold. */
    var tasks: seq<TaskData>
    var users: seq<Account>

    constructor (tasks: seq<TaskData>, users: seq<Account>)
      ensures this.tasks == tasks && this.users == users
    {
      this.tasks := tasks;
      this.users := users;
    }

    /** `addTask`: checks the arguments, then appends the new task. */
    method AddTask(freshId: string, title: Option<string>, description: Option<string>, dueDate: Option<Date>,
                   points: int, taskType: Option<TaskType>, childId: Option<string>)
      returns (r: Result<TaskData, Failure>)
      modifies this`tasks
      ensures r == NewTaskFor(users, freshId, title, description, dueDate, points, taskType, childId)
      ensures r.Ok? ==> tasks == old(tasks) + [r.value]
      ensures r.Err? ==> tasks == old(tasks)
    {
      var check := CheckNewTask(users, title, description, dueDate, points, childId);
      if check.Fail? {
        return Err(check.error);
      }
      r := NewTask(freshId, title, description, dueDate, points, taskType, childId);
      if r.Ok? {
        tasks := tasks + [r.value];
      }
    }

    /** `listTasks`: everything for a null type, otherwise the tasks of
        that type in list order. */
    function ListTasks(taskType: Option<TaskType>): (r: seq<TaskData>)
      reads this
      ensures taskType.None? ==> r == tasks
      ensures taskType.Some? ==> forall i :: 0 <= i < |r| ==> r[i] in tasks && r[i].taskType == taskType.value
      ensures taskType.Some? ==> forall i :: 0 <= i < |tasks| && tasks[i].taskType == taskType.value ==> tasks[i] in r
    {
      if taskType.None? then tasks else Filter(tasks, OfType(taskType.value))
    }

    /** `completeTask`. */
    method CompleteTask(taskId: Option<string>, childId: Option<string>) returns (r: Outcome<Failure>)
      modifies this`tasks
      ensures var c := Complete(old(tasks), users, taskId, childId);
        (c.Err? ==> r == Fail(c.error) && tasks == old(tasks)) && (c.Ok? ==> r == Pass && tasks == c.value)
    {
      var check := CheckTaskExists(tasks, taskId);
      if check.Fail? {
        return check;
      }
      check := CheckChildExists(users, childId);
      if check.Fail? {
        return check;
      }
      var k := FindTask(tasks, taskId.value).value;
      var task := tasks[k];
      if task.childId != childId.value {
        return Fail(Validation("Task does not belong to child: " + childId.value));
      }
      if task.status != NEW {
        return Fail(Validation("Task is not in NEW status. Current status: " + StatusName(task.status)));
      }
      tasks := tasks[k := task.(status := PENDING_APPROVAL)];
      return Pass;
    }

    /** `approveAndRate`. */
    method ApproveAndRate(taskId: Option<string>, rating: real, role: Option<Role>) returns (r: Outcome<Failure>)
      modifies this
      ensures var a := Approval(old(tasks), old(users), taskId, rating, role);
        (a.Err? ==> r == Fail(a.error) && tasks == old(tasks) && users == old(users))
        && (a.Ok? ==> r == Pass && tasks == a.value.0 && users == a.value.1)
    {
      var check := CheckRating(rating);
      if check.Fail? {
        return check;
      }
      check := CheckApproverRole(role);
      if check.Fail? {
        return check;
      }
      check := CheckTaskExists(tasks, taskId);
      if check.Fail? {
        return check;
      }
      var k := FindTask(tasks, taskId.value).value;
      var task := tasks[k];
      if task.status != PENDING_APPROVAL {
        return Fail(Validation("Task is not in PENDING_APPROVAL status. Current status: " + StatusName(task.status)));
      }
      var c := FindAccount(users, task.childId);
      if c.None? || !users[c.value].Kid? {
        return Fail(Validation("User is not a child: " + task.childId));
      }
      var child := users[c.value];
      var credited := L.Credit(child.ledger, task.points);
      if credited.Err? {
        return Fail(K2Child.Reason(credited.error));
      }
      // The rating was checked first, so recording it cannot fail.
      var rated := L.RecordRating(credited.value, rating).value;
      tasks := tasks[k := task.(status := APPROVED, rating := Some(rating))];
      users := users[c.value := child.(ledger := rated)];
      return Pass;
    }
  }
}
