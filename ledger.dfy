/** The points-and-rating ledger that the `Child` classes of the kid_task2
    and KidTask copies keep: a balance, a level derived from the balance,
    and a running sum and count of the ratings received. Both copies
    implement exactly these rules, so they are stated once here and each
    copy's class is proved against them. */
module Ledger {
  import opened Base

  datatype Ledger = Ledger(points: int, level: int, ratingSum: real, ratingCount: int)

  /** Why a ledger operation throws `IllegalArgumentException`. */
  datatype LedgerError = NegativeAmount | NegativeCost | RatingOutOfRange

  /** What the setters of `Child` enforce: no negative balance, level at
      least 1. */
  predicate Valid(l: Ledger)
  {
    l.points >= 0 && l.level >= 1
  }

  /** The ledger of a newly created child. */
  function Fresh(): (l: Ledger)
    ensures Valid(l) && l.points == 0 && l.level == 1
    ensures l.ratingSum == 0.0 && l.ratingCount == 0
  {
    Ledger(0, 1, 0.0, 0)
  }

  /** `updateLevelFromPoints`: `max(1, 1 + points / 100)`, one level per
      hundred points with no upper bound. */
  function LevelForPoints(points: int): (level: int)
    ensures level >= 1
    ensures points >= 0 ==> (level - 1) * 100 <= points < level * 100
  {
    Max(1, 1 + JavaDiv(points, 100))
  }

  /** `addPoints(amount)`. */
  function Credit(l: Ledger, amount: int): (r: Result<Ledger, LedgerError>)
    ensures r.Err? <==> amount < 0
    ensures r.Err? ==> r.error == NegativeAmount
    ensures r.Ok? ==> r.value.points == l.points + amount
    ensures r.Ok? ==> r.value.level == LevelForPoints(r.value.points)
    ensures r.Ok? ==> r.value.ratingSum == l.ratingSum && r.value.ratingCount == l.ratingCount
    ensures r.Ok? && Valid(l) ==> Valid(r.value)
  {
    if amount < 0 then Err(NegativeAmount)
    else
      var p := l.points + amount;
      Ok(l.(points := p, level := LevelForPoints(p)))
  }

  /** `spendPoints(cost)`: whether the cost was paid, and the ledger after. */
  function Spend(l: Ledger, cost: int): (r: Result<(bool, Ledger), LedgerError>)
    ensures r.Err? <==> cost < 0
    ensures r.Err? ==> r.error == NegativeCost
    ensures r.Ok? ==> (r.value.0 <==> cost <= l.points)
    ensures r.Ok? && !r.value.0 ==> r.value.1 == l
    ensures r.Ok? && r.value.0 ==> r.value.1.points == l.points - cost
    ensures r.Ok? && r.value.0 ==> r.value.1.level == LevelForPoints(r.value.1.points)
    ensures r.Ok? ==> r.value.1.ratingSum == l.ratingSum && r.value.1.ratingCount == l.ratingCount
    ensures r.Ok? && Valid(l) ==> Valid(r.value.1)
  {
    if cost < 0 then Err(NegativeCost)
    else if l.points < cost then Ok((false, l))
    else
      var p := l.points - cost;
      Ok((true, l.(points := p, level := LevelForPoints(p))))
  }

  /** `recordRating(rating)`: accepts ratings from 1 to 5 inclusive. */
  function RecordRating(l: Ledger, rating: real): (r: Result<Ledger, LedgerError>)
    ensures r.Err? <==> rating < 1.0 || rating > 5.0
    ensures r.Err? ==> r.error == RatingOutOfRange
    ensures r.Ok? ==> r.value.ratingSum == l.ratingSum + rating
    ensures r.Ok? ==> r.value.ratingCount == l.ratingCount + 1
    ensures r.Ok? ==> r.value.points == l.points && r.value.level == l.level
  {
    if rating < 1.0 || rating > 5.0 then Err(RatingOutOfRange)
    else Ok(l.(ratingSum := l.ratingSum + rating, ratingCount := l.ratingCount + 1))
  }

  /** `getAverageRating`: 0 before the first rating. */
  function AverageRating(l: Ledger): (avg: real)
    ensures l.ratingCount == 0 ==> avg == 0.0
    ensures l.ratingCount != 0 ==> avg * (l.ratingCount as real) == l.ratingSum
  {
    if l.ratingCount == 0 then 0.0 else l.ratingSum / (l.ratingCount as real)
  }

  /** A ledger whose sum and count could have come from `recordRating`
      alone: every rating lay between 1 and 5. */
  predicate RatingsInRange(l: Ledger)
  {
    l.ratingCount >= 0 && (l.ratingCount as real) <= l.ratingSum <= 5.0 * (l.ratingCount as real)
  }

  lemma RecordRatingKeepsRange(l: Ledger, rating: real)
    requires RatingsInRange(l)
    requires RecordRating(l, rating).Ok?
    ensures RatingsInRange(RecordRating(l, rating).value)
  {
  }

  /** With ratings recorded only through `recordRating`, the average is 0
      (no rating yet) or lies between 1 and 5. */
  lemma AverageInRange(l: Ledger)
    requires RatingsInRange(l)
    ensures var avg := AverageRating(l);
      (l.ratingCount == 0 && avg == 0.0) || (l.ratingCount > 0 && 1.0 <= avg <= 5.0)
  {
    if l.ratingCount > 0 {
      var c := l.ratingCount as real;
      var avg := AverageRating(l);
      assert (avg - 1.0) * c == l.ratingSum - c >= 0.0;
      assert (5.0 - avg) * c == 5.0 * c - l.ratingSum >= 0.0;
    }
  }

  /** More points never give a lower level. */
  lemma LevelMonotone(p: int, q: int)
    requires 0 <= p <= q
    ensures LevelForPoints(p) <= LevelForPoints(q)
  {
  }

  /** Spending what was just earned restores the balance, and the level
      is again the one the balance gives. */
  lemma CreditThenSpend(l: Ledger, amount: int)
    requires Valid(l) && amount >= 0
    ensures Credit(l, amount).Ok?
    ensures Spend(Credit(l, amount).value, amount)
      == Ok((true, l.(level := LevelForPoints(l.points))))
  {
  }

  /** One call on a `Child`'s ledger. */
  datatype Call = AddPoints(amount: int) | SpendPoints(cost: int) | Rate(rating: real)

  /** The ledger after one call; a `false` from `spendPoints` leaves it as
      it was. */
  function Apply(l: Ledger, c: Call): Result<Ledger, LedgerError>
  {
    match c
    case AddPoints(a) => Credit(l, a)
    case SpendPoints(cost) => (match Spend(l, cost) case Ok(s) => Ok(s.1) case Err(e) => Err(e))
    case Rate(x) => RecordRating(l, x)
  }

  /** The ledger after a sequence of calls; the first exception ends it. */
  function Run(l: Ledger, calls: seq<Call>): Result<Ledger, LedgerError>
    decreases |calls|
  {
    if calls == [] then Ok(l)
    else match Apply(l, calls[0])
      case Ok(next) => Run(next, calls[1..])
      case Err(e) => Err(e)
  }

  /** The balance never goes negative and the level never drops below 1,
      whatever sequence of calls is made. */
  lemma {:induction false} RunKeepsValid(l: Ledger, calls: seq<Call>)
    requires Valid(l)
    ensures Run(l, calls).Ok? ==> Valid(Run(l, calls).value)
    decreases |calls|
  {
    if calls != [] {
      match Apply(l, calls[0])
      case Ok(next) =>
        assert Valid(next);
        RunKeepsValid(next, calls[1..]);
      case Err(_) =>
    }
  }

  /** The same holds for the ratings: recorded only through
      `recordRating`, they stay in range whatever else happens. */
  lemma {:induction false} RunKeepsRatingsInRange(l: Ledger, calls: seq<Call>)
    requires RatingsInRange(l)
    ensures Run(l, calls).Ok? ==> RatingsInRange(Run(l, calls).value)
    decreases |calls|
  {
    if calls != [] {
      match Apply(l, calls[0])
      case Ok(next) =>
        assert RatingsInRange(next);
        RunKeepsRatingsInRange(next, calls[1..]);
      case Err(_) =>
    }
  }
}
