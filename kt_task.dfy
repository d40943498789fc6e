/** The KidTask copy's `Task` entity: a chore for one child whose setters
    validate the title, the points and the rating. The id is fixed at
    construction. Nullable arguments are `Option`s. */
module KTTask {
  import opened Base
  import opened Text
  import opened Numbers
  import opened Failures

  datatype TaskStatus = PENDING | COMPLETED | APPROVED
  datatype TaskType = DAILY | WEEKLY

  /** `TaskStatus.name()`. */
  function StatusName(s: TaskStatus): string
  {
    match s
    case PENDING => "PENDING"
    case COMPLETED => "COMPLETED"
    case APPROVED => "APPROVED"
  }

  /** `TaskStatus.valueOf`: the exact name, or `None` where it throws. */
  function StatusNamed(name: string): (r: Option<TaskStatus>)
    ensures r.Some? ==> StatusName(r.value) == name
    ensures r.None? <==> forall s :: StatusName(s) != name
  {
    if name == "PENDING" then Some(PENDING)
    else if name == "COMPLETED" then Some(COMPLETED)
    else if name == "APPROVED" then Some(APPROVED)
    else None
  }

  /** `TaskType.name()`. */
  function TypeName(t: TaskType): string
  {
    match t
    case DAILY => "DAILY"
    case WEEKLY => "WEEKLY"
  }

  /** `TaskType.valueOf`. */
  function TypeNamed(name: string): (r: Option<TaskType>)
    ensures r.Some? ==> TypeName(r.value) == name
    ensures r.None? <==> forall t :: TypeName(t) != name
  {
    if name == "DAILY" then Some(DAILY)
    else if name == "WEEKLY" then Some(WEEKLY)
    else None
  }

  /** A status name is a plain token that `valueOf` maps back. */
  lemma StatusNameFacts(s: TaskStatus)
    ensures Token(StatusName(s)) && StatusNamed(StatusName(s)) == Some(s)
  {
    match s
    case PENDING =>
    case COMPLETED =>
    case APPROVED =>
  }

  lemma TypeNameFacts(t: TaskType)
    ensures Token(TypeName(t)) && TypeNamed(TypeName(t)) == Some(t)
  {
  }

  /** The fields of a task. */
  datatype TaskData = TaskData(
    id: string,
    title: string,
    description: string,
    dueDate: Date,
    points: int,
    status: TaskStatus,
    taskType: TaskType,
    childId: string,
    rating: Option<real>)

  /** What the validating setters keep, taken together. */
  predicate Valid(t: TaskData)
  {
    !IsBlank(t.title) && t.points > 0
  }

  /** `setTitle`'s check: present and not blank. */
  function CheckTitle(title: Option<string>): (r: Outcome<Failure>)
    ensures r.Pass? <==> title.Some? && !IsBlank(title.value)
    ensures r.Fail? ==> r.error == IllegalArgument("Task title is required")
  {
    if title.None? || IsBlank(title.value) then Fail(IllegalArgument("Task title is required")) else Pass
  }

  /** `setPoints`'s check: strictly positive. */
  function CheckPoints(points: int): (r: Outcome<Failure>)
    ensures r.Pass? <==> points > 0
    ensures r.Fail? ==> r.error == IllegalArgument("Points must be positive")
  {
    if points <= 0 then Fail(IllegalArgument("Points must be positive")) else Pass
  }

  /** `setRating`'s check: null, or between 1 and 5 inclusive. */
  function CheckRating(rating: Option<real>): (r: Outcome<Failure>)
    ensures r.Pass? <==> rating.None? || 1.0 <= rating.value <= 5.0
    ensures r.Fail? ==> r.error == IllegalArgument("Rating must be between 1 and 5")
  {
    if rating.Some? && (rating.value < 1.0 || rating.value > 5.0) then
      Fail(IllegalArgument("Rating must be between 1 and 5"))
    else Pass
  }

  /** `setDescription`: null becomes the empty string. */
  function Described(description: Option<string>): (d: string)
    ensures description.Some? ==> d == description.value
    ensures description.None? ==> d == ""
  {
    if description.Some? then description.value else ""
  }

  /** The full constructor, in its statement order: the id, the title,
      the due date, the points, then status, type and child id. The rating
      is assigned directly, without `setRating`'s range check. */
  function TaskRecord(id: Option<string>, title: Option<string>, description: Option<string>,
                      dueDate: Option<Date>, points: int, status: Option<TaskStatus>,
                      taskType: Option<TaskType>, childId: Option<string>, rating: Option<real>)
    : (r: Result<TaskData, Failure>)
    ensures r.Ok? <==>
      (&& id.Some? && CheckTitle(title).Pass? && dueDate.Some? && points > 0
       && status.Some? && taskType.Some? && childId.Some?)
    ensures id.None? ==> r == Err(NullPointer("id"))
    ensures id.Some? && CheckTitle(title).Fail? ==> r == Err(CheckTitle(title).error)
    ensures id.Some? && CheckTitle(title).Pass? && dueDate.None? ==> r == Err(NullPointer("dueDate"))
    ensures id.Some? && CheckTitle(title).Pass? && dueDate.Some? && points <= 0 ==> r == Err(CheckPoints(points).error)
    ensures r.Ok? ==>
      (&& r.value.id == id.value && r.value.title == title.value && r.value.description == Described(description)
       && r.value.dueDate == dueDate.value && r.value.points == points && r.value.status == status.value
       && r.value.taskType == taskType.value && r.value.childId == childId.value && r.value.rating == rating)
    ensures r.Ok? ==> Valid(r.value)
  {
    if id.None? then Err(NullPointer("id"))
    else if CheckTitle(title).Fail? then Err(CheckTitle(title).error)
    else if dueDate.None? then Err(NullPointer("dueDate"))
    else if CheckPoints(points).Fail? then Err(CheckPoints(points).error)
    else if status.None? then Err(NullPointer("status"))
    else if taskType.None? then Err(NullPointer("type"))
    else if childId.None? then Err(NullPointer("childId"))
    else Ok(TaskData(id.value, title.value, Described(description), dueDate.value, points,
                     status.value, taskType.value, childId.value, rating))
  }

  /** The short constructor: a generated id (passed in), status PENDING,
      no rating. */
  function NewTask(freshId: string, title: Option<string>, description: Option<string>, dueDate: Option<Date>,
                   points: int, taskType: Option<TaskType>, childId: Option<string>): (r: Result<TaskData, Failure>)
    ensures r == TaskRecord(Some(freshId), title, description, dueDate, points, Some(PENDING), taskType, childId, None)
    ensures r.Ok? ==> r.value.id == freshId && r.value.status == PENDING && r.value.rating.None?
  {
    TaskRecord(Some(freshId), title, description, dueDate, points, Some(PENDING), taskType, childId, None)
  }

  /** The full constructor takes any rating, so a task can hold one that
      `setRating` would refuse. */
  lemma ConstructorSkipsRatingCheck(id: string, title: string, dueDate: Date, points: int,
                                    status: TaskStatus, taskType: TaskType, childId: string, rating: real)
    requires !IsBlank(title) && points > 0 && rating > 5.0
    ensures var r := TaskRecord(Some(id), Some(title), None, Some(dueDate), points, Some(status), Some(taskType),
                                Some(childId), Some(rating));
      r.Ok? && r.value.rating == Some(rating) && CheckRating(r.value.rating).Fail?
  {
  }

  class Task {
    const id: string
    var title: string
    var description: string
    var dueDate: Date
    var points: int
    var status: TaskStatus
    var taskType: TaskType
    var childId: string
    var rating: Option<real>

    function Value(): TaskData
      reads this
    {
      TaskData(id, title, description, dueDate, points, status, taskType, childId, rating)
    }

    constructor FromData(d: TaskData)
      ensures Value() == d
    {
      id := d.id;
      title := d.title;
      description := d.description;
      dueDate := d.dueDate;
      points := d.points;
      status := d.status;
      taskType := d.taskType;
      childId := d.childId;
      rating := d.rating;
    }

    /** `Task(id, title, description, dueDate, points, status, type,
        childId, rating)`. */
    static method Create(id: Option<string>, title: Option<string>, description: Option<string>,
                         dueDate: Option<Date>, points: int, status: Option<TaskStatus>,
                         taskType: Option<TaskType>, childId: Option<string>, rating: Option<real>)
      returns (r: Result<Task, Failure>)
      ensures var d := TaskRecord(id, title, description, dueDate, points, status, taskType, childId, rating);
        (d.Err? ==> r == Err(d.error)) && (d.Ok? ==> r.Ok? && fresh(r.value) && r.value.Value() == d.value)
    {
      var d := TaskRecord(id, title, description, dueDate, points, status, taskType, childId, rating);
      if d.Err? {
        return Err(d.error);
      }
      var t := new Task.FromData(d.value);
      return Ok(t);
    }

    /** `Task(title, description, dueDate, points, type, childId)`. */
    static method CreateNew(freshId: string, title: Option<string>, description: Option<string>, dueDate: Option<Date>,
                            points: int, taskType: Option<TaskType>, childId: Option<string>)
      returns (r: Result<Task, Failure>)
      ensures var d := NewTask(freshId, title, description, dueDate, points, taskType, childId);
        (d.Err? ==> r == Err(d.error)) && (d.Ok? ==> r.Ok? && fresh(r.value) && r.value.Value() == d.value)
    {
      r := Create(Some(freshId), title, description, dueDate, points, Some(PENDING), taskType, childId, None);
    }

    /** `setTitle`. */
    method SetTitle(v: Option<string>) returns (r: Outcome<Failure>)
      modifies this
      ensures r == CheckTitle(v)
      ensures r.Fail? ==> Value() == old(Value())
      ensures r.Pass? ==> Value() == old(Value()).(title := v.value)
      ensures old(Valid(Value())) ==> Valid(Value())
    {
      r := CheckTitle(v);
      if r.Pass? {
        title := v.value;
      }
    }

    /** `setDescription`: null becomes the empty string. */
    method SetDescription(v: Option<string>)
      modifies this
      ensures Value() == old(Value()).(description := Described(v))
    {
      description := if v.Some? then v.value else "";
    }

    /** `setDueDate`. */
    method SetDueDate(v: Option<Date>) returns (r: Outcome<Failure>)
      modifies this
      ensures v.None? ==> r == Fail(NullPointer("dueDate")) && Value() == old(Value())
      ensures v.Some? ==> r == Pass && Value() == old(Value()).(dueDate := v.value)
    {
      if v.None? {
        return Fail(NullPointer("dueDate"));
      }
      dueDate := v.value;
      return Pass;
    }

    /** `setPoints`: only a positive value is stored. */
    method SetPoints(v: int) returns (r: Outcome<Failure>)
      modifies this
      ensures r == CheckPoints(v)
      ensures r.Fail? ==> Value() == old(Value())
      ensures r.Pass? ==> Value() == old(Value()).(points := v)
      ensures old(Valid(Value())) ==> Valid(Value())
    {
      r := CheckPoints(v);
      if r.Pass? {
        points := v;
      }
    }

    /** `setStatus`. */
    method SetStatus(v: Option<TaskStatus>) returns (r: Outcome<Failure>)
      modifies this
      ensures v.None? ==> r == Fail(NullPointer("status")) && Value() == old(Value())
      ensures v.Some? ==> r == Pass && Value() == old(Value()).(status := v.value)
    {
      if v.None? {
        return Fail(NullPointer("status"));
      }
      status := v.value;
      return Pass;
    }

    /** `setType`. */
    method SetType(v: Option<TaskType>) returns (r: Outcome<Failure>)
      modifies this
      ensures v.None? ==> r == Fail(NullPointer("type")) && Value() == old(Value())
      ensures v.Some? ==> r == Pass && Value() == old(Value()).(taskType := v.value)
    {
      if v.None? {
        return Fail(NullPointer("type"));
      }
      taskType := v.value;
      return Pass;
    }

    /** `setChildId`. */
    method SetChildId(v: Option<string>) returns (r: Outcome<Failure>)
      modifies this
      ensures v.None? ==> r == Fail(NullPointer("childId")) && Value() == old(Value())
      ensures v.Some? ==> r == Pass && Value() == old(Value()).(childId := v.value)
    {
      if v.None? {
        return Fail(NullPointer("childId"));
      }
      childId := v.value;
      return Pass;
    }

    /** `setRating`: null, or a value in [1, 5]; anything else is refused
        and the rating kept. */
    method SetRating(v: Option<real>) returns (r: Outcome<Failure>)
      modifies this
      ensures r == CheckRating(v)
      ensures r.Fail? ==> Value() == old(Value())
      ensures r.Pass? ==> Value() == old(Value()).(rating := v)
      ensures r.Pass? ==> rating.None? || 1.0 <= rating.value <= 5.0
    {
      r := CheckRating(v);
      if r.Pass? {
        rating := v;
      }
    }

    /** `equals`: another task with the same id. */
    predicate Equals(o: Task?)
      reads this, o
    {
      o != null && id == o.id
    }
  }

  /** `equals` is an equivalence that looks at the id alone. */
  lemma EqualsById(a: Task, b: Task, c: Task)
    ensures a.Equals(a)
    ensures a.Equals(b) <==> b.Equals(a)
    ensures a.Equals(b) && b.Equals(c) ==> a.Equals(c)
    ensures a.Equals(b) <==> a.id == b.id
    ensures !a.Equals(null)
  {
  }
}
