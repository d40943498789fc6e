/** The kid_task copy's `Task` entity (shared by the kid_task2 services and
    repositories): a chore for one child, with a status, a type and a
    rating set on approval. Nullable arguments are `Option`s; a missing
    required one is the `NullPointerException` of `Objects.requireNonNull`. */
module K2Task {
  import opened Base
  import opened Failures
  import opened Numbers
  import opened Text

  datatype TaskStatus = NEW | PENDING_APPROVAL | APPROVED | REJECTED
  datatype TaskType = DAILY | WEEKLY

  /** The enum constant's name, as `toString` prints it. */
  function StatusName(s: TaskStatus): string
  {
    match s
    case NEW => "NEW"
    case PENDING_APPROVAL => "PENDING_APPROVAL"
    case APPROVED => "APPROVED"
    case REJECTED => "REJECTED"
  }

  /** `TaskStatus.valueOf(name)`: the constant with exactly that name, or
      `None` where Java throws. */
  function StatusNamed(name: string): (r: Option<TaskStatus>)
    ensures r.Some? ==> StatusName(r.value) == name
    ensures r.None? <==> forall s :: StatusName(s) != name
  {
    if name == "NEW" then Some(NEW)
    else if name == "PENDING_APPROVAL" then Some(PENDING_APPROVAL)
    else if name == "APPROVED" then Some(APPROVED)
    else if name == "REJECTED" then Some(REJECTED)
    else None
  }

  function TypeName(t: TaskType): string
  {
    match t
    case DAILY => "DAILY"
    case WEEKLY => "WEEKLY"
  }

  /** `TaskType.valueOf(name)`. */
  function TypeNamed(name: string): (r: Option<TaskType>)
    ensures r.Some? ==> TypeName(r.value) == name
    ensures r.None? <==> forall t :: TypeName(t) != name
  {
    if name == "DAILY" then Some(DAILY)
    else if name == "WEEKLY" then Some(WEEKLY)
    else None
  }

  /** Each status's name is an upper-case enum name and a plain token,
      and `valueOf` finds the status by it. */
  lemma StatusNameFacts(s: TaskStatus)
    ensures UpperName(StatusName(s)) && Token(StatusName(s)) && StatusNamed(StatusName(s)) == Some(s)
  {
    match s
    case NEW =>
    case PENDING_APPROVAL =>
    case APPROVED =>
    case REJECTED =>
  }

  /** The same for the task types. */
  lemma TypeNameFacts(t: TaskType)
    ensures UpperName(TypeName(t)) && Token(TypeName(t)) && TypeNamed(TypeName(t)) == Some(t)
  {
  }

  /** The fields of a task, as the repository stores them. */
  datatype TaskData = TaskData(
    id: string,
    title: string,
    description: string,
    dueDate: Date,
    points: int,
    status: TaskStatus,
    taskType: TaskType,
    childId: string,
    rating: Option<real>)

  /** The description rule of the constructor and `setDescription`: null
      becomes the empty string. */
  function Described(description: Option<string>): (d: string)
    ensures description.Some? ==> d == description.value
    ensures description.None? ==> d == ""
  {
    if description.Some? then description.value else ""
  }

  /** The full constructor: each required field is checked for null in
      declaration order; points and rating are taken as they are. */
  function TaskRecord(id: Option<string>, title: Option<string>, description: Option<string>,
                      dueDate: Option<Date>, points: int, status: Option<TaskStatus>,
                      taskType: Option<TaskType>, childId: Option<string>, rating: Option<real>): (r: Result<TaskData, Failure>)
    ensures r.Ok? <==> id.Some? && title.Some? && dueDate.Some? && status.Some? && taskType.Some? && childId.Some?
    ensures id.None? ==> r == Err(NullPointer("ID cannot be null"))
    ensures id.Some? && title.None? ==> r == Err(NullPointer("Title cannot be null"))
    ensures id.Some? && title.Some? && dueDate.None? ==> r == Err(NullPointer("Due date cannot be null"))
    ensures id.Some? && title.Some? && dueDate.Some? && status.None? ==> r == Err(NullPointer("Status cannot be null"))
    ensures id.Some? && title.Some? && dueDate.Some? && status.Some? && taskType.None? ==>
      r == Err(NullPointer("Type cannot be null"))
    ensures id.Some? && title.Some? && dueDate.Some? && status.Some? && taskType.Some? && childId.None? ==>
      r == Err(NullPointer("Child ID cannot be null"))
    ensures r.Ok? ==>
      (r.value.id == id.value && r.value.title == title.value && r.value.dueDate == dueDate.value
       && r.value.status == status.value && r.value.taskType == taskType.value && r.value.childId == childId.value)
    ensures r.Ok? ==> r.value.description == Described(description) && r.value.points == points && r.value.rating == rating
  {
    if id.None? then Err(NullPointer("ID cannot be null"))
    else if title.None? then Err(NullPointer("Title cannot be null"))
    else if dueDate.None? then Err(NullPointer("Due date cannot be null"))
    else if status.None? then Err(NullPointer("Status cannot be null"))
    else if taskType.None? then Err(NullPointer("Type cannot be null"))
    else if childId.None? then Err(NullPointer("Child ID cannot be null"))
    else Ok(TaskData(id.value, title.value, Described(description), dueDate.value, points,
                     status.value, taskType.value, childId.value, rating))
  }

  /** The short constructor: a fresh id (a generated UUID, passed in),
      status NEW and no rating. */
  function NewTask(freshId: string, title: Option<string>, description: Option<string>, dueDate: Option<Date>,
                   points: int, taskType: Option<TaskType>, childId: Option<string>): (r: Result<TaskData, Failure>)
    ensures r == TaskRecord(Some(freshId), title, description, dueDate, points, Some(NEW), taskType, childId, None)
    ensures r.Ok? ==> r.value.id == freshId && r.value.status == NEW && r.value.rating.None?
  {
    TaskRecord(Some(freshId), title, description, dueDate, points, Some(NEW), taskType, childId, None)
  }

  class Task {
    var id: string
    var title: string
    var description: string
    var dueDate: Date
    var points: int
    var status: TaskStatus
    var taskType: TaskType
    var childId: string
    var rating: Option<real>

    function Value(): TaskData
      reads this
    {
      TaskData(id, title, description, dueDate, points, status, taskType, childId, rating)
    }

    constructor FromData(d: TaskData)
      ensures Value() == d
    {
      id := d.id;
      title := d.title;
      description := d.description;
      dueDate := d.dueDate;
      points := d.points;
      status := d.status;
      taskType := d.taskType;
      childId := d.childId;
      rating := d.rating;
    }

    /** `Task(id, title, description, dueDate, points, status, type,
        childId, rating)`. */
    static method Create(id: Option<string>, title: Option<string>, description: Option<string>,
                         dueDate: Option<Date>, points: int, status: Option<TaskStatus>,
                         taskType: Option<TaskType>, childId: Option<string>, rating: Option<real>)
      returns (r: Result<Task, Failure>)
      ensures var d := TaskRecord(id, title, description, dueDate, points, status, taskType, childId, rating);
        (d.Err? ==> r == Err(d.error)) && (d.Ok? ==> r.Ok? && fresh(r.value) && r.value.Value() == d.value)
    {
      var d := TaskRecord(id, title, description, dueDate, points, status, taskType, childId, rating);
      if d.Err? {
        return Err(d.error);
      }
      var t := new Task.FromData(d.value);
      return Ok(t);
    }

    /** `Task(title, description, dueDate, points, type, childId)`. */
    static method CreateNew(freshId: string, title: Option<string>, description: Option<string>, dueDate: Option<Date>,
                            points: int, taskType: Option<TaskType>, childId: Option<string>)
      returns (r: Result<Task, Failure>)
      ensures var d := NewTask(freshId, title, description, dueDate, points, taskType, childId);
        (d.Err? ==> r == Err(d.error)) && (d.Ok? ==> r.Ok? && fresh(r.value) && r.value.Value() == d.value)
    {
      r := Create(Some(freshId), title, description, dueDate, points, Some(NEW), taskType, childId, None);
    }

    /** `setId`. */
    method SetId(v: Option<string>) returns (r: Outcome<Failure>)
      modifies this
      ensures v.None? ==> r == Fail(NullPointer("ID cannot be null")) && Value() == old(Value())
      ensures v.Some? ==> r == Pass && Value() == old(Value()).(id := v.value)
    {
      if v.None? {
        return Fail(NullPointer("ID cannot be null"));
      }
      id := v.value;
      return Pass;
    }

    /** `setTitle`. */
    method SetTitle(v: Option<string>) returns (r: Outcome<Failure>)
      modifies this
      ensures v.None? ==> r == Fail(NullPointer("Title cannot be null")) && Value() == old(Value())
      ensures v.Some? ==> r == Pass && Value() == old(Value()).(title := v.value)
    {
      if v.None? {
        return Fail(NullPointer("Title cannot be null"));
      }
      title := v.value;
      return Pass;
    }

    /** `setDescription`: null becomes the empty string. */
    method SetDescription(v: Option<string>)
      modifies this
      ensures Value() == old(Value()).(description := Described(v))
    {
      description := if v.Some? then v.value else "";
    }

    /** `setDueDate`. */
    method SetDueDate(v: Option<Date>) returns (r: Outcome<Failure>)
      modifies this
      ensures v.None? ==> r == Fail(NullPointer("Due date cannot be null")) && Value() == old(Value())
      ensures v.Some? ==> r == Pass && Value() == old(Value()).(dueDate := v.value)
    {
      if v.None? {
        return Fail(NullPointer("Due date cannot be null"));
      }
      dueDate := v.value;
      return Pass;
    }

    /** `setPoints`: no range check. */
    method SetPoints(v: int)
      modifies this
      ensures Value() == old(Value()).(points := v)
    {
      points := v;
    }

    /** `setStatus`. */
    method SetStatus(v: Option<TaskStatus>) returns (r: Outcome<Failure>)
      modifies this
      ensures v.None? ==> r == Fail(NullPointer("Status cannot be null")) && Value() == old(Value())
      ensures v.Some? ==> r == Pass && Value() == old(Value()).(status := v.value)
    {
      if v.None? {
        return Fail(NullPointer("Status cannot be null"));
      }
      status := v.value;
      return Pass;
    }

    /** `setType`. */
    method SetType(v: Option<TaskType>) returns (r: Outcome<Failure>)
      modifies this
      ensures v.None? ==> r == Fail(NullPointer("Type cannot be null")) && Value() == old(Value())
      ensures v.Some? ==> r == Pass && Value() == old(Value()).(taskType := v.value)
    {
      if v.None? {
        return Fail(NullPointer("Type cannot be null"));
      }
      taskType := v.value;
      return Pass;
    }

    /** `setChildId`. */
    method SetChildId(v: Option<string>) returns (r: Outcome<Failure>)
      modifies this
      ensures v.None? ==> r == Fail(NullPointer("Child ID cannot be null")) && Value() == old(Value())
      ensures v.Some? ==> r == Pass && Value() == old(Value()).(childId := v.value)
    {
      if v.None? {
        return Fail(NullPointer("Child ID cannot be null"));
      }
      childId := v.value;
      return Pass;
    }

    /** `setRating`: any value, or null; no range check. */
    method SetRating(v: Option<real>)
      modifies this
      ensures Value() == old(Value()).(rating := v)
    {
      rating := v;
    }

    /** `equals`: same id. */
    predicate Equals(o: Task?)
      reads this, o
    {
      o != null && id == o.id
    }
  }

  /** `equals` is an equivalence that looks at the id alone, so two tasks
      with the same id are equal whatever else differs. */
  lemma EqualsById(a: Task, b: Task, c: Task)
    ensures a.Equals(a)
    ensures a.Equals(b) <==> b.Equals(a)
    ensures a.Equals(b) && b.Equals(c) ==> a.Equals(c)
    ensures a.Equals(b) <==> a.id == b.id
    ensures !a.Equals(null)
  {
  }
}
