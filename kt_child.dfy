/** The KidTask copy's `Child`: a `User` with role CHILD and the points
    ledger of module Ledger, updated in place. */
module KTChild {
  import opened Base
  import opened Text
  import opened Failures
  import opened KTUser
  import L = Ledger

  /** The message of the exception each ledger error raises in this copy. */
  function Reason(e: L.LedgerError): Failure
  {
    match e
    case NegativeAmount => IllegalArgument("Cannot add negative points")
    case NegativeCost => IllegalArgument("Cost cannot be negative")
    case RatingOutOfRange => IllegalArgument("Rating must be between 1 and 5")
  }

  /** The checks of `Child(id, name, points, level, ...)` in the order the
      constructor makes them: the name, then the points, then the level. */
  function CheckChild(name: Option<string>, points: int, level: int): (r: Outcome<Failure>)
    ensures r.Pass? <==> CheckName(name).Pass? && points >= 0 && level >= 1
  {
    if CheckName(name).Fail? then CheckName(name)
    else if points < 0 then Fail(IllegalArgument("Points cannot be negative"))
    else if level < 1 then Fail(IllegalArgument("Level must be at least 1"))
    else Pass
  }

  class Child {
    const id: string
    var name: string
    var points: int
    var level: int
    var ratingSum: real
    var ratingCount: int

    ghost predicate Valid()
      reads this
    {
      !IsBlank(name) && L.Valid(Ledger())
    }

    function Ledger(): L.Ledger
      reads this
    {
      L.Ledger(points, level, ratingSum, ratingCount)
    }

    /** `getRole()`: fixed by the constructor. */
    function Role(): UserRole
    {
      CHILD
    }

    constructor Init(id: string, name: string, ledger: L.Ledger)
      requires !IsBlank(name) && L.Valid(ledger)
      ensures Valid()
      ensures this.id == id && this.name == name && Ledger() == ledger
    {
      this.id := id;
      this.name := name;
      this.points := ledger.points;
      this.level := ledger.level;
      this.ratingSum := ledger.ratingSum;
      this.ratingCount := ledger.ratingCount;
    }

    /** `Child(id, name, points, level, ratingSum, ratingCount)`; a missing
        id is replaced by the freshly generated one passed in. */
    static method Create(id: Option<string>, freshId: string, name: Option<string>,
                         points: int, level: int, ratingSum: real, ratingCount: int)
      returns (r: Result<Child, Failure>)
      ensures CheckChild(name, points, level).Fail? ==> r == Err(CheckChild(name, points, level).error)
      ensures CheckChild(name, points, level).Pass? ==> r.Ok? && fresh(r.value) && r.value.Valid()
      ensures r.Ok? ==> r.value.id == ResolveId(id, freshId) && Some(r.value.name) == name
      ensures r.Ok? ==> r.value.Ledger() == L.Ledger(points, level, ratingSum, ratingCount)
    {
      var check := CheckChild(name, points, level);
      if check.Fail? {
        return Err(check.error);
      }
      var c := new Child.Init(ResolveId(id, freshId), name.value, L.Ledger(points, level, ratingSum, ratingCount));
      return Ok(c);
    }

    /** `Child(name)`: a generated id, no points, level 1, no ratings. */
    static method CreateNew(freshId: string, name: Option<string>) returns (r: Result<Child, Failure>)
      ensures r.Err? <==> CheckName(name).Fail?
      ensures r.Ok? ==> fresh(r.value) && r.value.Valid()
      ensures r.Ok? ==> r.value.id == freshId && Some(r.value.name) == name && r.value.Ledger() == L.Fresh()
    {
      r := Create(None, freshId, name, 0, 1, 0.0, 0);
    }

    /** `setName`, inherited from `User`. */
    method SetName(newName: Option<string>) returns (r: Outcome<Failure>)
      modifies this`name
      ensures r == CheckName(newName)
      ensures r.Pass? ==> Some(name) == newName
      ensures r.Fail? ==> name == old(name)
      ensures old(Valid()) ==> Valid()
    {
      r := CheckName(newName);
      if r.Pass? {
        name := newName.value;
      }
    }

    /** `setPoints`: rejects a negative balance. */
    method SetPoints(p: int) returns (r: Outcome<Failure>)
      modifies this`points
      ensures r.Fail? <==> p < 0
      ensures r.Fail? ==> r.error == IllegalArgument("Points cannot be negative") && points == old(points)
      ensures r.Pass? ==> points == p
      ensures old(Valid()) ==> Valid()
    {
      if p < 0 {
        return Fail(IllegalArgument("Points cannot be negative"));
      }
      points := p;
      return Pass;
    }

    /** `setLevel`: rejects a level below 1. */
    method SetLevel(lv: int) returns (r: Outcome<Failure>)
      modifies this`level
      ensures r.Fail? <==> lv < 1
      ensures r.Fail? ==> r.error == IllegalArgument("Level must be at least 1") && level == old(level)
      ensures r.Pass? ==> level == lv
      ensures old(Valid()) ==> Valid()
    {
      if lv < 1 {
        return Fail(IllegalArgument("Level must be at least 1"));
      }
      level := lv;
      return Pass;
    }

    /** `getAverageRating`. */
    function AverageRating(): (avg: real)
      reads this
      ensures ratingCount == 0 ==> avg == 0.0
      ensures ratingCount != 0 ==> avg * (ratingCount as real) == ratingSum
    {
      L.AverageRating(Ledger())
    }

    /** `recordRating`: throws outside [1, 5], otherwise adds the rating to
        the sum and one to the count. */
    method RecordRating(rating: real) returns (r: Outcome<Failure>)
      modifies this`ratingSum, this`ratingCount
      ensures L.RecordRating(old(Ledger()), rating).Err? ==>
        r == Fail(Reason(L.RecordRating(old(Ledger()), rating).error)) && Ledger() == old(Ledger())
      ensures L.RecordRating(old(Ledger()), rating).Ok? ==>
        r == Pass && Ledger() == L.RecordRating(old(Ledger()), rating).value
      ensures old(Valid()) ==> Valid()
    {
      if rating < 1.0 || rating > 5.0 {
        return Fail(IllegalArgument("Rating must be between 1 and 5"));
      }
      ratingSum := ratingSum + rating;
      ratingCount := ratingCount + 1;
      return Pass;
    }

    /** `addPoints`: throws on a negative amount, otherwise credits it and
        recomputes the level. */
    method AddPoints(amount: int) returns (r: Outcome<Failure>)
      modifies this`points, this`level
      ensures L.Credit(old(Ledger()), amount).Err? ==>
        r == Fail(Reason(L.Credit(old(Ledger()), amount).error)) && Ledger() == old(Ledger())
      ensures L.Credit(old(Ledger()), amount).Ok? ==>
        r == Pass && Ledger() == L.Credit(old(Ledger()), amount).value
      ensures old(Valid()) ==> Valid()
    {
      if amount < 0 {
        return Fail(IllegalArgument("Cannot add negative points"));
      }
      points := points + amount;
      level := Max(1, 1 + JavaDiv(points, 100));
      return Pass;
    }

    /** `spendPoints`: throws on a negative cost, answers false with no
        change when the balance is short, otherwise debits the cost and
        recomputes the level. */
    method SpendPoints(cost: int) returns (r: Result<bool, Failure>)
      modifies this`points, this`level
      ensures L.Spend(old(Ledger()), cost).Err? ==>
        r == Err(Reason(L.Spend(old(Ledger()), cost).error)) && Ledger() == old(Ledger())
      ensures L.Spend(old(Ledger()), cost).Ok? ==>
        r == Ok(L.Spend(old(Ledger()), cost).value.0) && Ledger() == L.Spend(old(Ledger()), cost).value.1
      ensures old(Valid()) ==> Valid()
    {
      if cost < 0 {
        return Err(IllegalArgument("Cost cannot be negative"));
      }
      if points < cost {
        return Ok(false);
      }
      points := points - cost;
      level := Max(1, 1 + JavaDiv(points, 100));
      return Ok(true);
    }

    /** `equals`: another `Child` with the same id, whatever its name and
        ledger. */
    predicate Equals(o: Child?)
    {
      o != null && id == o.id
    }
  }

  /** `equals` is an equivalence that looks at the id alone. */
  lemma EqualsById(a: Child, b: Child, c: Child)
    ensures a.Equals(a)
    ensures a.Equals(b) <==> b.Equals(a)
    ensures a.Equals(b) && b.Equals(c) ==> a.Equals(c)
    ensures a.Equals(b) <==> a.id == b.id
    ensures !a.Equals(null)
  {
  }
}
