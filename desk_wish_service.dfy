/** The Desktop copy's `WishService`: a kid asks for a reward, a parent or
    teacher approves it with a price in points and a minimum level, and the
    kid later buys it if the wallet and level allow. No `Wish` class comes
    with this copy; the record below has the fields the service uses. */
module DeskWishService {
  import opened Base
  import opened Failures
  import opened Seqs
  import opened DeskUser
  import opened DeskUserService

  datatype Wish = Wish(
    id: int,
    name: string,
    description: string,
    requiredPoints: int,
    requiredLevel: int,
    approved: bool,
    purchased: bool,
    kidId: string)

  function HasWishId(id: int): Wish -> bool
  {
    (w: Wish) => w.id == id
  }

  function WishOfKid(kidId: string): Wish -> bool
  {
    (w: Wish) => w.kidId == kidId
  }

  /** What `addWishFromKid` appends: id one past the list's length, free,
      level 1, neither approved nor purchased. */
  function NewWish(wishes: seq<Wish>, kidId: string, name: string, desc: string): (w: Wish)
    ensures w.id == |wishes| + 1 && w.kidId == kidId
    ensures w.requiredPoints == 0 && w.requiredLevel == 1 && !w.approved && !w.purchased
  {
    Wish(|wishes| + 1, name, desc, 0, 1, false, false, kidId)
  }

  /** Ids number the list from 1. Appending with `size() + 1` and changing
      wishes in place keeps this, so each id names one wish. */
  predicate IdsArePositions(wishes: seq<Wish>)
  {
    forall i :: 0 <= i < |wishes| ==> wishes[i].id == i + 1
  }

  /** The wish list after `approveWish(wishId, points, level)`: the first
      wish with that id gets the price and level and is approved, whatever
      state it was in; an unknown id changes nothing. */
  function ApprovedWishes(wishes: seq<Wish>, wishId: int, points: int, level: int): (r: seq<Wish>)
    ensures |r| == |wishes|
    ensures FirstIndex(wishes, HasWishId(wishId)).None? ==> r == wishes
    ensures forall i :: 0 <= i < |wishes| ==> r[i].id == wishes[i].id && r[i].kidId == wishes[i].kidId
    ensures forall i :: 0 <= i < |wishes| && r[i] != wishes[i] ==>
      wishes[i].id == wishId && r[i] == wishes[i].(requiredPoints := points, requiredLevel := level, approved := true)
  {
    match FirstIndex(wishes, HasWishId(wishId))
    case None => wishes
    case Some(k) => wishes[k := wishes[k].(requiredPoints := points, requiredLevel := level, approved := true)]
  }

  /** A wish `purchaseWish(kidId, wishId)` looks at: that id, that kid,
      approved and not yet bought. */
  function Eligible(kidId: string, wishId: int): Wish -> bool
  {
    (w: Wish) => w.id == wishId && w.kidId == kidId && w.approved && !w.purchased
  }

  /** An eligible wish the kid's wallet and level can pay for. */
  function Buyable(kidId: string, wishId: int, g: Progress): Wish -> bool
  {
    (w: Wish) => w.id == wishId && w.kidId == kidId && w.approved && !w.purchased
      && g.points >= w.requiredPoints && g.level >= w.requiredLevel
  }

  /** What `purchaseWish(kidId, wishId)` does, given the kid's wallet (none
      when no user has that id): the position of the wish it buys, none
      when it answers false, or the `NullPointerException` it throws when
      an eligible wish exists but the kid does not. */
  function Purchase(wishes: seq<Wish>, kidId: string, wishId: int, kid: Option<Progress>): (r: Result<Option<nat>, Failure>)
    ensures r.Err? <==> kid.None? && exists i :: 0 <= i < |wishes| && Eligible(kidId, wishId)(wishes[i])
    ensures r.Ok? && r.value.Some? ==>
      (kid.Some? && r.value.value < |wishes| &&
       var w := wishes[r.value.value];
       w.id == wishId && w.kidId == kidId && w.approved && !w.purchased
       && kid.value.points >= w.requiredPoints && kid.value.level >= w.requiredLevel)
    ensures r.Ok? && r.value.None? && kid.Some? ==>
      forall i :: 0 <= i < |wishes| ==> !Buyable(kidId, wishId, kid.value)(wishes[i])
  {
    match FirstIndex(wishes, Eligible(kidId, wishId))
    case None => Ok(None)
    case Some(_) =>
      match kid
      case None => Err(NullPointer("kid"))
      case Some(g) => Ok(FirstIndex(wishes, Buyable(kidId, wishId, g)))
  }

  /** Once a wish is bought, buying it again finds nothing to buy, whatever
      the wallet holds: a wish is paid for at most once. */
  lemma PurchaseTwiceDebitsOnce(wishes: seq<Wish>, kidId: string, wishId: int, g: Progress, later: Option<Progress>)
    requires IdsArePositions(wishes)
    requires Purchase(wishes, kidId, wishId, Some(g)).Ok? && Purchase(wishes, kidId, wishId, Some(g)).value.Some?
    ensures var k := Purchase(wishes, kidId, wishId, Some(g)).value.value;
      Purchase(wishes[k := wishes[k].(purchased := true)], kidId, wishId, later) == Ok(None)
  {
    var k := Purchase(wishes, kidId, wishId, Some(g)).value.value;
    var after := wishes[k := wishes[k].(purchased := true)];
    forall i | 0 <= i < |after|
      ensures !Eligible(kidId, wishId)(after[i])
    {
      if i != k {
        assert after[i] == wishes[i];
      }
    }
  }

  /** `approveWish` and the purchase step keep ids numbering the list. */
  lemma StepsKeepIds(wishes: seq<Wish>, wishId: int, points: int, level: int, k: nat)
    requires IdsArePositions(wishes)
    ensures IdsArePositions(ApprovedWishes(wishes, wishId, points, level))
    ensures k < |wishes| ==> IdsArePositions(wishes[k := wishes[k].(purchased := true)])
  {
  }

  /** Buying at a non-negative price takes exactly that price from the
      wallet and leaves experience and level as they were. */
  lemma PurchaseDebitsPrice(g: Progress, price: int)
    requires price >= 0
    ensures Earn(g, -price) == g.(points := g.points - price)
  {
  }

  class WishService {
    var wishes: seq<Wish>
    const userService: UserService

    /** The service over the list read from the wishes file (an empty list
        when there is no file). */
    constructor (u: UserService, loaded: seq<Wish>)
      ensures userService == u && wishes == loaded
    {
      userService := u;
      wishes := loaded;
    }

    /** `addWishFromKid`. */
    method AddWishFromKid(kidId: string, name: string, desc: string)
      modifies this`wishes
      ensures wishes == old(wishes) + [NewWish(old(wishes), kidId, name, desc)]
      ensures old(IdsArePositions(wishes)) ==> IdsArePositions(wishes)
    {
      var w := Wish(|wishes| + 1, name, desc, 0, 1, false, false, kidId);
      wishes := wishes + [w];
    }

    /** `getWishesOfKid`: that kid's wishes, in list order. */
    method GetWishesOfKid(kidId: string) returns (result: seq<Wish>)
      ensures result == Filter(wishes, WishOfKid(kidId))
    {
      result := [];
      var i := 0;
      while i < |wishes|
        invariant 0 <= i <= |wishes|
        invariant result == Filter(wishes[..i], WishOfKid(kidId))
      {
        FilterSnoc(wishes, i, WishOfKid(kidId));
        if wishes[i].kidId == kidId {
          result := result + [wishes[i]];
        }
        i := i + 1;
      }
      assert wishes[..|wishes|] == wishes;
    }

    /** `approveWish`. */
    method ApproveWish(wishId: int, points: int, level: int)
      modifies this`wishes
      ensures wishes == ApprovedWishes(old(wishes), wishId, points, level)
    {
      var i := 0;
      while i < |wishes|
        invariant 0 <= i <= |wishes| && wishes == old(wishes)
        invariant forall j :: 0 <= j < i ==> wishes[j].id != wishId
      {
        if wishes[i].id == wishId {
          FirstIndexIs(wishes, HasWishId(wishId), i);
          wishes := wishes[i := wishes[i].(requiredPoints := points, requiredLevel := level, approved := true)];
          return;
        }
        i := i + 1;
      }
      FirstIndexIs(wishes, HasWishId(wishId), |wishes|);
    }

    /** The loop of `purchaseWish`: the first eligible wish the kid's
        wallet pays for, none when the loop ends, or the
        `NullPointerException` of reading the wallet of a kid that does not
        exist. Nothing changes. */
    method FindPurchase(kidId: string, wishId: int) returns (r: Result<Option<nat>, Failure>)
      ensures var u := userService.GetUserById(kidId);
        r == Purchase(wishes, kidId, wishId, if u.Some? then Some(u.value.Wallet()) else None)
    {
      var kid := userService.GetUserById(kidId);
      var i := 0;
      while i < |wishes|
        invariant 0 <= i <= |wishes|
        invariant kid.Some? ==> forall j :: 0 <= j < i ==> !Buyable(kidId, wishId, kid.value.Wallet())(wishes[j])
        invariant kid.None? ==> forall j :: 0 <= j < i ==> !Eligible(kidId, wishId)(wishes[j])
      {
        var w := wishes[i];
        if w.id == wishId && w.kidId == kidId && w.approved && !w.purchased {
          if kid.None? {
            assert Eligible(kidId, wishId)(wishes[i]);
            return Err(NullPointer("kid"));
          }
          if kid.value.points >= w.requiredPoints && kid.value.level >= w.requiredLevel {
            assert Buyable(kidId, wishId, kid.value.Wallet())(wishes[i]);
            FirstIndexIs(wishes, Buyable(kidId, wishId, kid.value.Wallet()), i);
            return Ok(Some(i));
          }
        }
        i := i + 1;
      }
      if kid.Some? {
        FirstIndexIs(wishes, Buyable(kidId, wishId, kid.value.Wallet()), |wishes|);
      }
      return Ok(None);
    }

    /** `purchaseWish`: buys the first eligible wish the kid can afford,
        debiting its price through `addPoints`; answers false and changes
        nothing when there is none. Only the kid's wallet changes. */
    method PurchaseWish(kidId: string, wishId: int) returns (r: Result<bool, Failure>)
      modifies this`wishes, userService.users
      ensures userService.users == old(userService.users)
      ensures var u := userService.GetUserById(kidId);
        var out := Purchase(old(wishes), kidId, wishId, if u.Some? then Some(old(u.value.Wallet())) else None);
        && (out.Err? ==> r.Err? && wishes == old(wishes))
        && (out == Ok(None) ==> r == Ok(false) && wishes == old(wishes))
        && (out.Ok? && out.value.Some? ==>
              var k := out.value.value;
              r == Ok(true)
              && wishes == old(wishes)[k := old(wishes)[k].(purchased := true)]
              && u.value.Wallet() == Earn(old(u.value.Wallet()), -old(wishes)[k].requiredPoints))
      ensures forall v :: v in userService.users ==>
        v.Wallet() == old(v.Wallet()) || (r == Ok(true) && Some(v) == userService.GetUserById(kidId))
    {
      var found := FindPurchase(kidId, wishId);
      match found
      case Err(e) =>
        return Err(e);
      case Ok(None) =>
        return Ok(false);
      case Ok(Some(i)) =>
        var kid := userService.GetUserById(kidId);
        kid.value.AddPoints(-wishes[i].requiredPoints);
        wishes := wishes[i := wishes[i].(purchased := true)];
        return Ok(true);
    }
  }
}
