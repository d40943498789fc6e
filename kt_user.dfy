/** The KidTask copy's `User` base class: an id fixed at construction
    (generated when none is given), a required name, and a role that never
    changes. `Parent` and `Teacher` add nothing to it; `Child` adds the
    ledger (module KTChild). */
module KTUser {
  import opened Base
  import opened Text
  import opened Failures

  datatype UserRole = CHILD | PARENT | TEACHER

  /** `UserRole.name()`. */
  function RoleName(r: UserRole): string
  {
    match r
    case CHILD => "CHILD"
    case PARENT => "PARENT"
    case TEACHER => "TEACHER"
  }

  /** `UserRole.valueOf`: the exact name, or `None` where it throws. */
  function RoleNamed(name: string): (r: Option<UserRole>)
    ensures r.Some? ==> RoleName(r.value) == name
    ensures r.None? <==> forall x :: RoleName(x) != name
  {
    if name == "CHILD" then Some(CHILD)
    else if name == "PARENT" then Some(PARENT)
    else if name == "TEACHER" then Some(TEACHER)
    else None
  }

  /** `id == null ? UUID.randomUUID().toString() : id`, with the generated
      UUID passed in. */
  function ResolveId(id: Option<string>, freshId: string): string
  {
    if id.None? then freshId else id.value
  }

  /** The check `setName` makes: the name is present and not blank. */
  function CheckName(name: Option<string>): (r: Outcome<Failure>)
    ensures r.Pass? <==> name.Some? && !IsBlank(name.value)
    ensures r.Fail? ==> r.error == IllegalArgument("Name is required")
  {
    if name.None? || IsBlank(name.value) then Fail(IllegalArgument("Name is required")) else Pass
  }

  /** A `Parent` or a `Teacher`. */
  class User {
    const id: string
    var name: string
    const role: UserRole

    ghost predicate Valid()
      reads this
    {
      !IsBlank(name)
    }

    constructor Init(id: string, name: string, role: UserRole)
      requires !IsBlank(name)
      ensures Valid()
      ensures this.id == id && this.name == name && this.role == role
    {
      this.id := id;
      this.name := name;
      this.role := role;
    }

    /** `User(id, name, role)`: a missing id is replaced by the fresh one,
        and the name goes through `setName`. */
    static method Create(id: Option<string>, freshId: string, name: Option<string>, role: UserRole)
      returns (r: Result<User, Failure>)
      ensures CheckName(name).Fail? ==> r == Err(CheckName(name).error)
      ensures CheckName(name).Pass? ==> r.Ok? && fresh(r.value) && r.value.Valid()
      ensures r.Ok? ==> r.value.id == ResolveId(id, freshId) && Some(r.value.name) == name && r.value.role == role
    {
      var check := CheckName(name);
      if check.Fail? {
        return Err(check.error);
      }
      var u := new User.Init(ResolveId(id, freshId), name.value, role);
      return Ok(u);
    }

    /** `Parent(id, name)`. */
    static method CreateParent(id: Option<string>, freshId: string, name: Option<string>)
      returns (r: Result<User, Failure>)
      ensures r.Err? <==> CheckName(name).Fail?
      ensures r.Ok? ==> fresh(r.value) && r.value.Valid() && r.value.role == PARENT
      ensures r.Ok? ==> r.value.id == ResolveId(id, freshId) && Some(r.value.name) == name
    {
      r := Create(id, freshId, name, PARENT);
    }

    /** `Teacher(id, name)`. */
    static method CreateTeacher(id: Option<string>, freshId: string, name: Option<string>)
      returns (r: Result<User, Failure>)
      ensures r.Err? <==> CheckName(name).Fail?
      ensures r.Ok? ==> fresh(r.value) && r.value.Valid() && r.value.role == TEACHER
      ensures r.Ok? ==> r.value.id == ResolveId(id, freshId) && Some(r.value.name) == name
    {
      r := Create(id, freshId, name, TEACHER);
    }

    /** `setName`: a missing or blank name is refused and the old one kept. */
    method SetName(newName: Option<string>) returns (r: Outcome<Failure>)
      modifies this`name
      ensures r == CheckName(newName)
      ensures r.Pass? ==> Some(name) == newName
      ensures r.Fail? ==> name == old(name)
      ensures old(Valid()) ==> Valid()
    {
      r := CheckName(newName);
      if r.Pass? {
        name := newName.value;
      }
    }
  }
}
