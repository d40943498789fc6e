/** The kid_task2 `LevelService`: the alternative level policy, where a
    child's level is the whole part of the average rating (at least 1),
    stored on request. The user repository is modelled by its list. */
module K2LevelService {
  import opened Base
  import opened Failures
  import opened K2Child
  import opened K2Lookup
  import L = Ledger

  /** `calculateLevelFromRating`: `max(1, floor(average))`. */
  function LevelFromRating(average: real): (level: int)
    ensures level >= 1
    ensures average >= 1.0 ==> level as real <= average < level as real + 1.0
    ensures average < 2.0 ==> level == 1
    ensures average <= 5.0 ==> level <= 5
  {
    Max(1, FloorOf(average))
  }

  /** A higher average never gives a lower level. */
  lemma LevelFromRatingMonotone(a: real, b: real)
    requires a <= b
    ensures LevelFromRating(a) <= LevelFromRating(b)
  {
    if FloorOf(a) > FloorOf(b) {
      assert FloorOf(b) as real + 1.0 <= FloorOf(a) as real;
    }
  }

  /** With ratings recorded only through `recordRating`, the level lies
      between 1 and 5. */
  lemma LevelOfValidRatings(l: L.Ledger)
    requires L.RatingsInRange(l)
    ensures 1 <= LevelFromRating(L.AverageRating(l)) <= 5
  {
    L.AverageInRange(l);
  }

  /** `updateLevelFromRatings`: the new level and the user list with it
      stored on the child. */
  function UpdateLevel(users: seq<Account>, childId: Option<string>): (r: Result<(int, seq<Account>), Failure>)
    ensures MissingId(childId) ==> r == Err(Validation("Child ID cannot be null or empty"))
    ensures !MissingId(childId) && FindAccount(users, childId.value).None? ==>
      r == Err(NotFound("Child not found: " + childId.value))
    ensures !MissingId(childId) && FindAccount(users, childId.value).Some? && !users[FindAccount(users, childId.value).value].Kid? ==>
      r == Err(Validation("User is not a child: " + childId.value))
    ensures r.Ok? ==>
      var c := FindAccount(users, childId.value).value;
      && users[c].Kid?
      && r.value.0 == LevelFromRating(L.AverageRating(users[c].ledger))
      && |r.value.1| == |users|
      && r.value.1[c] == users[c].(ledger := users[c].ledger.(level := r.value.0))
      && (forall j :: 0 <= j < |users| && j != c ==> r.value.1[j] == users[j])
  {
    if MissingId(childId) then Err(Validation("Child ID cannot be null or empty"))
    else match FindAccount(users, childId.value)
      case None => Err(NotFound("Child not found: " + childId.value))
      case Some(c) =>
        if !users[c].Kid? then Err(Validation("User is not a child: " + childId.value))
        else
          var level := LevelFromRating(L.AverageRating(users[c].ledger));
          Ok((level, users[c := users[c].(ledger := users[c].ledger.(level := level))]))
  }

  /** The level returned is the one stored on the child; points and
      ratings stay as they were. */
  lemma UpdateLevelStores(users: seq<Account>, childId: Option<string>)
    requires UpdateLevel(users, childId).Ok?
    ensures var (level, after) := UpdateLevel(users, childId).value;
      var c := FindAccount(after, childId.value);
      && c == FindAccount(users, childId.value)
      && after[c.value].ledger.level == level
      && after[c.value].ledger.points == users[c.value].ledger.points
      && after[c.value].ledger.ratingSum == users[c.value].ledger.ratingSum
      && after[c.value].ledger.ratingCount == users[c.value].ledger.ratingCount
  {
    var c := FindAccount(users, childId.value).value;
    FindAfterLedgerUpdate(users, c, users[c].ledger.(level := UpdateLevel(users, childId).value.0), childId.value);
  }

  /** Updating twice gives the same level: the policy reads the ratings,
      which the update does not touch. */
  lemma UpdateLevelIdempotent(users: seq<Account>, childId: Option<string>)
    requires UpdateLevel(users, childId).Ok?
    ensures var (level, after) := UpdateLevel(users, childId).value;
      UpdateLevel(after, childId) == Ok((level, after))
  {
    var (level, after) := UpdateLevel(users, childId).value;
    var c := FindAccount(users, childId.value).value;
    FindAfterLedgerUpdate(users, c, users[c].ledger.(level := level), childId.value);
    assert after[c := after[c].(ledger := after[c].ledger.(level := level))] == after;
  }

  class LevelService {
    /** What the user repository holds. */
    var users: seq<Account>

    constructor (users: seq<Account>)
      ensures this.users == users
    {
      this.users := users;
    }

    /** `updateLevelFromRatings`. */
    method UpdateLevelFromRatings(childId: Option<string>) returns (r: Result<int, Failure>)
      modifies this
      ensures var u := UpdateLevel(old(users), childId);
        (u.Err? ==> r == Err(u.error) && users == old(users)) && (u.Ok? ==> r == Ok(u.value.0) && users == u.value.1)
    {
      if MissingId(childId) {
        return Err(Validation("Child ID cannot be null or empty"));
      }
      var c := FindAccount(users, childId.value);
      if c.None? {
        return Err(NotFound("Child not found: " + childId.value));
      }
      var user := users[c.value];
      if !user.Kid? {
        return Err(Validation("User is not a child: " + childId.value));
      }
      var newLevel := LevelFromRating(L.AverageRating(user.ledger));
      users := users[c.value := user.(ledger := user.ledger.(level := newLevel))];
      return Ok(newLevel);
    }
  }
}
