/** The kid_task `WishService`: validated wish requests, the list of wishes
    a level unlocks, and approval by a parent, which pays for the wish out
    of the child's points at once. The repositories are modelled by their
    lists; a failed operation saves nothing. */
module K2WishService {
  import opened Base
  import opened Text
  import opened Failures
  import opened Seqs
  import opened Numbers
  import opened K2Child
  import opened K2Wish
  import opened K2Lookup
  import L = Ledger

  function WishHasId(id: string): WishData -> bool
  {
    (w: WishData) => w.id == id
  }

  function UnlockedAt(level: int): WishData -> bool
  {
    (w: WishData) => level >= w.minLevel
  }

  /** `findWishById`. */
  function FindWish(wishes: seq<WishData>, id: string): (k: Option<nat>)
    ensures k.Some? ==> k.value < |wishes| && wishes[k.value].id == id
    ensures k.Some? ==> forall j :: 0 <= j < k.value ==> wishes[j].id != id
    ensures k.None? <==> forall j :: 0 <= j < |wishes| ==> wishes[j].id != id
  {
    FirstIndex(wishes, WishHasId(id))
  }

  /** `validateTitle`. */
  function CheckTitle(title: Option<string>): (r: Outcome<Failure>)
    ensures r.Pass? <==> title.Some? && !TrimsToEmpty(title.value) && |title.value| <= 200
    ensures title.None? || TrimsToEmpty(title.value) ==> r == Fail(Validation("Wish title cannot be null or empty"))
    ensures title.Some? && !TrimsToEmpty(title.value) && |title.value| > 200 ==>
      r == Fail(Validation("Wish title cannot exceed 200 characters"))
  {
    if title.None? || TrimsToEmpty(title.value) then Fail(Validation("Wish title cannot be null or empty"))
    else if |title.value| > 200 then Fail(Validation("Wish title cannot exceed 200 characters"))
    else Pass
  }

  /** `validateDescription`: a null description is allowed. */
  function CheckDescription(description: Option<string>): (r: Outcome<Failure>)
    ensures r.Pass? <==> description.None? || |description.value| <= 1000
    ensures r.Fail? ==> r.error == Validation("Wish description cannot exceed 1000 characters")
  {
    if description.Some? && |description.value| > 1000 then Fail(Validation("Wish description cannot exceed 1000 characters"))
    else Pass
  }

  /** `validateCostPoints`: 1 to 10000. */
  function CheckCost(cost: int): (r: Outcome<Failure>)
    ensures r.Pass? <==> 1 <= cost <= 10000
    ensures cost <= 0 ==> r == Fail(Validation("Cost points must be positive"))
    ensures cost > 10000 ==> r == Fail(Validation("Cost points cannot exceed 10000"))
  {
    if cost <= 0 then Fail(Validation("Cost points must be positive"))
    else if cost > 10000 then Fail(Validation("Cost points cannot exceed 10000"))
    else Pass
  }

  /** `validateMinLevel`: 1 to 100. */
  function CheckMinLevel(minLevel: int): (r: Outcome<Failure>)
    ensures r.Pass? <==> 1 <= minLevel <= 100
    ensures minLevel < 1 ==> r == Fail(Validation("Minimum level must be at least 1"))
    ensures minLevel > 100 ==> r == Fail(Validation("Minimum level cannot exceed 100"))
  {
    if minLevel < 1 then Fail(Validation("Minimum level must be at least 1"))
    else if minLevel > 100 then Fail(Validation("Minimum level cannot exceed 100"))
    else Pass
  }

  /** `validateWishExists`. */
  function CheckWishExists(wishes: seq<WishData>, wishId: Option<string>): (r: Outcome<Failure>)
    ensures r.Pass? <==> !MissingId(wishId) && exists j :: 0 <= j < |wishes| && wishes[j].id == wishId.value
    ensures MissingId(wishId) ==> r == Fail(Validation("Wish ID cannot be null or empty"))
    ensures !MissingId(wishId) && r.Fail? ==> r == Fail(NotFound("Wish not found: " + wishId.value))
  {
    if MissingId(wishId) then Fail(Validation("Wish ID cannot be null or empty"))
    else if FindWish(wishes, wishId.value).None? then Fail(NotFound("Wish not found: " + wishId.value))
    else Pass
  }

  /** The checks of `addWish`, in the order it makes them. */
  function CheckNewWish(users: seq<Account>, title: Option<string>, description: Option<string>,
                        cost: int, minLevel: int, childId: Option<string>): (r: Outcome<Failure>)
    ensures r.Pass? <==>
      (CheckTitle(title).Pass? && CheckDescription(description).Pass? && CheckCost(cost).Pass?
       && CheckMinLevel(minLevel).Pass? && CheckChildExists(users, childId).Pass?)
    ensures CheckTitle(title).Fail? ==> r == CheckTitle(title)
    ensures CheckTitle(title).Pass? && CheckDescription(description).Fail? ==> r == CheckDescription(description)
    ensures (CheckTitle(title).Pass? && CheckDescription(description).Pass? && CheckCost(cost).Fail?) ==> r == CheckCost(cost)
    ensures (CheckTitle(title).Pass? && CheckDescription(description).Pass? && CheckCost(cost).Pass?
             && CheckMinLevel(minLevel).Fail?) ==> r == CheckMinLevel(minLevel)
    ensures (r.Fail? && CheckTitle(title).Pass? && CheckDescription(description).Pass? && CheckCost(cost).Pass?
             && CheckMinLevel(minLevel).Pass?) ==> r == CheckChildExists(users, childId)
  {
    if CheckTitle(title).Fail? then CheckTitle(title)
    else if CheckDescription(description).Fail? then CheckDescription(description)
    else if CheckCost(cost).Fail? then CheckCost(cost)
    else if CheckMinLevel(minLevel).Fail? then CheckMinLevel(minLevel)
    else CheckChildExists(users, childId)
  }

  /** `addWish`: the wish created once the checks pass; a null type passes
      the checks and fails in the `Wish` constructor. */
  function NewWishFor(users: seq<Account>, freshId: string, title: Option<string>, description: Option<string>,
                      cost: int, minLevel: int, wishType: Option<WishType>, childId: Option<string>): (r: Result<WishData, Failure>)
    ensures CheckNewWish(users, title, description, cost, minLevel, childId).Fail? ==>
      r == Err(CheckNewWish(users, title, description, cost, minLevel, childId).error)
    ensures CheckNewWish(users, title, description, cost, minLevel, childId).Pass? && wishType.None? ==>
      r == Err(NullPointer("Type cannot be null"))
    ensures r.Ok? ==>
      (wishType.Some? && r.value.id == freshId && r.value.status == PENDING && r.value.approvedByUserId.None?
       && r.value.requestedByChildId == childId.value && r.value.wishType == wishType.value)
    ensures r.Ok? ==> 1 <= r.value.costPoints <= 10000 && 1 <= r.value.minLevel <= 100
    ensures r.Ok? ==> exists j :: 0 <= j < |users| && users[j].id == r.value.requestedByChildId && users[j].RoleOf() == CHILD
  {
    var check := CheckNewWish(users, title, description, cost, minLevel, childId);
    if check.Fail? then Err(check.error)
    else NewWish(freshId, title, description, cost, minLevel, wishType, childId)
  }

  /** `approveWish`: the wish and user lists after a parent approves a
      pending wish that the child can afford: the cost comes off the
      child's points at once and the wish records its approver. */
  function WishApproval(wishes: seq<WishData>, users: seq<Account>, wishId: Option<string>, approverId: Option<string>)
    : (r: Result<(seq<WishData>, seq<Account>), Failure>)
    ensures CheckWishExists(wishes, wishId).Fail? ==> r == Err(CheckWishExists(wishes, wishId).error)
    ensures CheckWishExists(wishes, wishId).Pass? && CheckParentExists(users, approverId).Fail? ==>
      r == Err(CheckParentExists(users, approverId).error)
    ensures r.Ok? ==> CheckWishExists(wishes, wishId).Pass? && CheckParentExists(users, approverId).Pass?
    ensures r.Ok? ==>
      var k := FindWish(wishes, wishId.value).value;
      var wish := wishes[k];
      && wish.status == PENDING
      && r.value.0 == wishes[k := wish.(status := APPROVED, approvedByUserId := approverId)]
      && FindAccount(users, wish.requestedByChildId).Some?
      && var c := FindAccount(users, wish.requestedByChildId).value;
      && users[c].Kid?
      && users[c].ledger.level >= wish.minLevel
      && 0 <= wish.costPoints <= users[c].ledger.points
      && r.value.1 == users[c := users[c].(ledger := L.Spend(users[c].ledger, wish.costPoints).value.1)]
  {
    if CheckWishExists(wishes, wishId).Fail? then Err(CheckWishExists(wishes, wishId).error)
    else if CheckParentExists(users, approverId).Fail? then Err(CheckParentExists(users, approverId).error)
    else
      var k := FindWish(wishes, wishId.value).value;
      var wish := wishes[k];
      if wish.status != PENDING then
        Err(Validation("Wish is not in PENDING status. Current status: " + K2Wish.StatusName(wish.status)))
      else match FindAccount(users, wish.requestedByChildId)
        case None => Err(Validation("User is not a child: " + wish.requestedByChildId))
        case Some(c) =>
          var child := users[c];
          if !child.Kid? then Err(Validation("User is not a child: " + wish.requestedByChildId))
          else if child.ledger.level < wish.minLevel then
            Err(Validation("Child level " + IntText(child.ledger.level) + " is below required level "
                           + IntText(wish.minLevel) + " for this wish"))
          else if child.ledger.points < wish.costPoints then
            Err(Validation("Child has " + IntText(child.ledger.points) + " points, but wish requires "
                           + IntText(wish.costPoints) + " points"))
          else match L.Spend(child.ledger, wish.costPoints)
            case Err(e) => Err(K2Child.Reason(e))
            case Ok((paid, after)) =>
              if !paid then Err(Validation("Failed to spend points for wish"))
              else Ok((wishes[k := wish.(status := APPROVED, approvedByUserId := approverId)],
                       users[c := child.(ledger := after)]))
  }

  /** On approval the child's points fall by exactly the wish's cost, the
      level follows the new balance, and nobody else changes. */
  lemma ApprovalDebits(wishes: seq<WishData>, users: seq<Account>, wishId: Option<string>, approverId: Option<string>)
    requires WishApproval(wishes, users, wishId, approverId).Ok?
    ensures var w := wishes[FindWish(wishes, wishId.value).value];
      var c := FindAccount(users, w.requestedByChildId).value;
      var after := WishApproval(wishes, users, wishId, approverId).value.1;
      && |after| == |users|
      && after[c].ledger.points == users[c].ledger.points - w.costPoints
      && after[c].ledger.level == L.LevelForPoints(after[c].ledger.points)
      && after[c].ledger.ratingSum == users[c].ledger.ratingSum
      && after[c].ledger.ratingCount == users[c].ledger.ratingCount
      && (forall j :: 0 <= j < |users| && j != c ==> after[j] == users[j])
  {
  }

  /** A child below the wish's level, or short of its cost, is refused and
      nothing is debited. */
  lemma ShortfallRefused(wishes: seq<WishData>, users: seq<Account>, wishId: Option<string>, approverId: Option<string>)
    requires !MissingId(wishId) && FindWish(wishes, wishId.value).Some?
    requires var w := wishes[FindWish(wishes, wishId.value).value];
      var c := FindAccount(users, w.requestedByChildId);
      c.Some? && users[c.value].Kid?
      && (users[c.value].ledger.level < w.minLevel || users[c.value].ledger.points < w.costPoints)
    ensures WishApproval(wishes, users, wishId, approverId).Err?
  {
  }

  /** A teacher cannot approve a wish. */
  lemma TeacherRefused(wishes: seq<WishData>, users: seq<Account>, wishId: Option<string>, approverId: Option<string>)
    requires !MissingId(approverId) && FindAccount(users, approverId.value).Some?
    requires users[FindAccount(users, approverId.value).value].RoleOf() == TEACHER
    ensures WishApproval(wishes, users, wishId, approverId).Err?
  {
  }

  /** A wish is paid for once: approving it again fails. */
  lemma ApproveWishTwiceFails(wishes: seq<WishData>, users: seq<Account>, wishId: Option<string>, approverId: Option<string>,
                              approver2: Option<string>)
    requires WishApproval(wishes, users, wishId, approverId).Ok?
    ensures var s := WishApproval(wishes, users, wishId, approverId).value;
      WishApproval(s.0, s.1, wishId, approver2).Err?
  {
    var k := FindWish(wishes, wishId.value).value;
    FirstIndexUpdate(wishes, WishHasId(wishId.value), k, wishes[k].(status := APPROVED, approvedByUserId := approverId));
  }

  class WishService {
    /** What the wish and user repositories hold. */
    var wishes: seq<WishData>
    var users: seq<Account>

    constructor (wishes: seq<WishData>, users: seq<Account>)
      ensures this.wishes == wishes && this.users == users
    {
      this.wishes := wishes;
      this.users := users;
    }

    /** `addWish`: checks the arguments, then appends the new wish. */
    method AddWish(freshId: string, title: Option<string>, description: Option<string>, cost: int, minLevel: int,
                   wishType: Option<WishType>, childId: Option<string>) returns (r: Result<WishData, Failure>)
      modifies this`wishes
      ensures r == NewWishFor(users, freshId, title, description, cost, minLevel, wishType, childId)
      ensures r.Ok? ==> wishes == old(wishes) + [r.value]
      ensures r.Err? ==> wishes == old(wishes)
    {
      var check := CheckNewWish(users, title, description, cost, minLevel, childId);
      if check.Fail? {
        return Err(check.error);
      }
      r := NewWish(freshId, title, description, cost, minLevel, wishType, childId);
      if r.Ok? {
        wishes := wishes + [r.value];
      }
    }

    /** `listVisibleWishes`: refuses a level below 1; otherwise the wishes
        whose minimum level the child has reached, in list order. */
    function ListVisibleWishes(childLevel: int): (r: Result<seq<WishData>, Failure>)
      reads this
      ensures childLevel < 1 <==> r.Err?
      ensures r.Err? ==> r.error == Validation("Child level must be at least 1")
      ensures r.Ok? ==> forall i :: 0 <= i < |r.value| ==> r.value[i] in wishes && r.value[i].minLevel <= childLevel
      ensures r.Ok? ==> forall i :: 0 <= i < |wishes| && wishes[i].minLevel <= childLevel ==> wishes[i] in r.value
    {
      if childLevel < 1 then Err(Validation("Child level must be at least 1"))
      else Ok(Filter(wishes, UnlockedAt(childLevel)))
    }

    /** `approveWish`. */
    method ApproveWish(wishId: Option<string>, approverId: Option<string>) returns (r: Outcome<Failure>)
      modifies this
      ensures var a := WishApproval(old(wishes), old(users), wishId, approverId);
        (a.Err? ==> r == Fail(a.error) && wishes == old(wishes) && users == old(users))
        && (a.Ok? ==> r == Pass && wishes == a.value.0 && users == a.value.1)
    {
      var check := CheckWishExists(wishes, wishId);
      if check.Fail? {
        return check;
      }
      check := CheckParentExists(users, approverId);
      if check.Fail? {
        return check;
      }
      var k := FindWish(wishes, wishId.value).value;
      var wish := wishes[k];
      if wish.status != PENDING {
        return Fail(Validation("Wish is not in PENDING status. Current status: " + K2Wish.StatusName(wish.status)));
      }
      var c := FindAccount(users, wish.requestedByChildId);
      if c.None? || !users[c.value].Kid? {
        return Fail(Validation("User is not a child: " + wish.requestedByChildId));
      }
      var child := users[c.value];
      if child.ledger.level < wish.minLevel {
        return Fail(Validation("Child level " + IntText(child.ledger.level) + " is below required level "
                               + IntText(wish.minLevel) + " for this wish"));
      }
      if child.ledger.points < wish.costPoints {
        return Fail(Validation("Child has " + IntText(child.ledger.points) + " points, but wish requires "
                               + IntText(wish.costPoints) + " points"));
      }
      var spent := L.Spend(child.ledger, wish.costPoints);
      if spent.Err? {
        return Fail(K2Child.Reason(spent.error));
      }
      // The balance was checked above, so the debit goes through.
      var after := spent.value.1;
      wishes := wishes[k := wish.(status := APPROVED, approvedByUserId := approverId)];
      users := users[c.value := child.(ledger := after)];
      return Pass;
    }
  }
}
