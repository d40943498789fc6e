/** The kid_task2 copy's users: `User` (a name and a role) and its subclass
    `Child`, whose ledger is updated in place. */
module K2Child {
  import opened Base
  import opened Failures
  import L = Ledger
  import opened Text
  import opened Numbers

  datatype Role = CHILD | PARENT | TEACHER

  /** A user as the repositories and services hold it: a plain `User`, or
      a `Child` with its ledger. */
  datatype Account =
    | Member(id: string, name: string, role: Role)
    | Kid(id: string, name: string, ledger: L.Ledger)
  {
    /** `getRole()`; a `Child` is always created with role CHILD. */
    function RoleOf(): Role
    {
      if Kid? then CHILD else role
    }
  }

  /** `name()` of the role constants. */
  function RoleName(r: Role): string
  {
    match r
    case CHILD => "CHILD"
    case PARENT => "PARENT"
    case TEACHER => "TEACHER"
  }

  /** `Role.valueOf(name)`: `None` where Java throws. */
  function RoleNamed(name: string): (r: Option<Role>)
    ensures r.Some? ==> RoleName(r.value) == name
    ensures r.None? <==> forall role :: RoleName(role) != name
  {
    if name == "CHILD" then Some(CHILD)
    else if name == "PARENT" then Some(PARENT)
    else if name == "TEACHER" then Some(TEACHER)
    else None
  }

  /** Each name is an upper-case enum name and a plain token, and
      `valueOf` finds the role by it. */
  lemma RoleNameFacts(r: Role)
    ensures UpperName(RoleName(r)) && Token(RoleName(r)) && RoleNamed(RoleName(r)) == Some(r)
  {
    match r
    case CHILD =>
    case PARENT =>
    case TEACHER =>
  }

  /** What `Child(id, name, points, level, ratingSum, ratingCount)`
      builds: the points and level go through the validating setters, in
      that order; the rating fields are stored as given. */
  function ChildRecord(id: string, name: string, points: int, level: int, ratingSum: real, ratingCount: int)
    : (r: Result<Account, Failure>)
    ensures r.Err? <==> points < 0 || level < 1
    ensures points < 0 ==> r == Err(IllegalArgument("Points cannot be negative"))
    ensures points >= 0 && level < 1 ==> r == Err(IllegalArgument("Level must be at least 1"))
    ensures r.Ok? ==> r.value == Kid(id, name, L.Ledger(points, level, ratingSum, ratingCount)) && L.Valid(r.value.ledger)
  {
    if points < 0 then Err(IllegalArgument("Points cannot be negative"))
    else if level < 1 then Err(IllegalArgument("Level must be at least 1"))
    else Ok(Kid(id, name, L.Ledger(points, level, ratingSum, ratingCount)))
  }

  /** The message of the exception each ledger error raises in this copy. */
  function Reason(e: L.LedgerError): Failure
  {
    match e
    case NegativeAmount => IllegalArgument("Cannot add negative points")
    case NegativeCost => IllegalArgument("Cost cannot be negative")
    case RatingOutOfRange => IllegalArgument("Rating must be between 1.0 and 5.0")
  }

  class Child {
    var id: string
    var name: string
    var points: int
    var level: int
    var ratingSum: real
    var ratingCount: int

    /** What the setters keep: no negative balance, level at least 1. */
    ghost predicate Valid()
      reads this
    {
      L.Valid(Ledger())
    }

    function Ledger(): L.Ledger
      reads this
    {
      L.Ledger(points, level, ratingSum, ratingCount)
    }

    /** This child as an entry of the user list. */
    function Value(): Account
      reads this
    {
      Kid(id, name, Ledger())
    }

    /** `Child(name)`: the id is a freshly generated UUID, passed in. */
    constructor New(freshId: string, name: string)
      ensures Valid()
      ensures Value() == Kid(freshId, name, L.Fresh())
    {
      this.id := freshId;
      this.name := name;
      this.points := 0;
      this.level := 1;
      this.ratingSum := 0.0;
      this.ratingCount := 0;
    }

    /** `Child(id, name, points, level, ratingSum, ratingCount)`: the points
        and level go through the validating setters, the rating fields are
        stored as given. */
    static method Create(id: string, name: string, points: int, level: int, ratingSum: real, ratingCount: int)
      returns (r: Result<Child, Failure>)
      ensures var d := ChildRecord(id, name, points, level, ratingSum, ratingCount);
        (d.Err? ==> r == Err(d.error)) && (d.Ok? ==> r.Ok? && fresh(r.value) && r.value.Valid() && r.value.Value() == d.value)
    {
      if points < 0 {
        return Err(IllegalArgument("Points cannot be negative"));
      }
      if level < 1 {
        return Err(IllegalArgument("Level must be at least 1"));
      }
      var c := new Child.New(id, name);
      c.points := points;
      c.level := level;
      c.ratingSum := ratingSum;
      c.ratingCount := ratingCount;
      return Ok(c);
    }

    /** `setPoints`: rejects a negative balance; the level is not touched. */
    method SetPoints(p: int) returns (r: Outcome<Failure>)
      modifies this
      ensures r.Fail? <==> p < 0
      ensures r.Fail? ==> r.error == IllegalArgument("Points cannot be negative") && Value() == old(Value())
      ensures r.Pass? ==> Ledger() == old(Ledger()).(points := p)
      ensures id == old(id) && name == old(name)
      ensures old(Valid()) ==> Valid()
    {
      if p < 0 {
        return Fail(IllegalArgument("Points cannot be negative"));
      }
      points := p;
      return Pass;
    }

    /** `setLevel`: rejects a level below 1. */
    method SetLevel(lv: int) returns (r: Outcome<Failure>)
      modifies this
      ensures r.Fail? <==> lv < 1
      ensures r.Fail? ==> r.error == IllegalArgument("Level must be at least 1") && Value() == old(Value())
      ensures r.Pass? ==> Ledger() == old(Ledger()).(level := lv)
      ensures id == old(id) && name == old(name)
      ensures old(Valid()) ==> Valid()
    {
      if lv < 1 {
        return Fail(IllegalArgument("Level must be at least 1"));
      }
      level := lv;
      return Pass;
    }

    /** `setRatingSum`: rejects a negative sum. */
    method SetRatingSum(s: real) returns (r: Outcome<Failure>)
      modifies this
      ensures r.Fail? <==> s < 0.0
      ensures r.Fail? ==> r.error == IllegalArgument("Rating sum cannot be negative") && Value() == old(Value())
      ensures r.Pass? ==> Ledger() == old(Ledger()).(ratingSum := s)
      ensures id == old(id) && name == old(name)
      ensures old(Valid()) ==> Valid()
    {
      if s < 0.0 {
        return Fail(IllegalArgument("Rating sum cannot be negative"));
      }
      ratingSum := s;
      return Pass;
    }

    /** `setRatingCount`: rejects a negative count. */
    method SetRatingCount(n: int) returns (r: Outcome<Failure>)
      modifies this
      ensures r.Fail? <==> n < 0
      ensures r.Fail? ==> r.error == IllegalArgument("Rating count cannot be negative") && Value() == old(Value())
      ensures r.Pass? ==> Ledger() == old(Ledger()).(ratingCount := n)
      ensures id == old(id) && name == old(name)
      ensures old(Valid()) ==> Valid()
    {
      if n < 0 {
        return Fail(IllegalArgument("Rating count cannot be negative"));
      }
      ratingCount := n;
      return Pass;
    }

    /** `getAverageRating`. */
    function AverageRating(): (avg: real)
      reads this
      ensures ratingCount == 0 ==> avg == 0.0
      ensures ratingCount != 0 ==> avg * (ratingCount as real) == ratingSum
    {
      L.AverageRating(Ledger())
    }

    /** `addPoints`: throws on a negative amount, otherwise credits it and
        recomputes the level from the new balance. */
    method AddPoints(amount: int) returns (r: Outcome<Failure>)
      modifies this
      ensures id == old(id) && name == old(name)
      ensures L.Credit(old(Ledger()), amount).Err? ==>
        r == Fail(Reason(L.Credit(old(Ledger()), amount).error)) && Ledger() == old(Ledger())
      ensures L.Credit(old(Ledger()), amount).Ok? ==>
        r == Pass && Ledger() == L.Credit(old(Ledger()), amount).value
      ensures old(Valid()) ==> Valid()
    {
      if amount < 0 {
        return Fail(IllegalArgument("Cannot add negative points"));
      }
      points := points + amount;
      UpdateLevelFromPoints();
      return Pass;
    }

    /** `spendPoints`: throws on a negative cost; answers false and changes
        nothing when the balance is short; otherwise debits the cost and
        recomputes the level. */
    method SpendPoints(cost: int) returns (r: Result<bool, Failure>)
      modifies this
      ensures id == old(id) && name == old(name)
      ensures L.Spend(old(Ledger()), cost).Err? ==>
        r == Err(Reason(L.Spend(old(Ledger()), cost).error)) && Ledger() == old(Ledger())
      ensures L.Spend(old(Ledger()), cost).Ok? ==>
        r == Ok(L.Spend(old(Ledger()), cost).value.0) && Ledger() == L.Spend(old(Ledger()), cost).value.1
      ensures old(Valid()) ==> Valid()
    {
      if cost < 0 {
        return Err(IllegalArgument("Cost cannot be negative"));
      }
      if points < cost {
        return Ok(false);
      }
      points := points - cost;
      UpdateLevelFromPoints();
      return Ok(true);
    }

    /** `recordRating`: throws outside [1.0, 5.0], otherwise adds the
        rating to the sum and one to the count. */
    method RecordRating(rating: real) returns (r: Outcome<Failure>)
      modifies this
      ensures id == old(id) && name == old(name)
      ensures L.RecordRating(old(Ledger()), rating).Err? ==>
        r == Fail(Reason(L.RecordRating(old(Ledger()), rating).error)) && Ledger() == old(Ledger())
      ensures L.RecordRating(old(Ledger()), rating).Ok? ==>
        r == Pass && Ledger() == L.RecordRating(old(Ledger()), rating).value
      ensures old(Valid()) ==> Valid()
    {
      if rating < 1.0 || rating > 5.0 {
        return Fail(IllegalArgument("Rating must be between 1.0 and 5.0"));
      }
      ratingSum := ratingSum + rating;
      ratingCount := ratingCount + 1;
      return Pass;
    }

    /** `updateLevelFromPoints`: the previous level plays no part. */
    method UpdateLevelFromPoints()
      modifies this`level
      ensures level == L.LevelForPoints(points)
    {
      level := Max(1, 1 + JavaDiv(points, 100));
    }
  }
}
