/** The KidTask copy's `WishManager`: the wishes by id, and the approval
    of a wish, which debits its cost from the child's ledger once.

    The rule is stated as a function of the wish map and the child's
    ledger; the class holds the wish map and updates the `Child` object it
    is handed. `HashMap` iteration order is not modelled: listings are
    sets. */
module KTWishManager {
  import opened Base
  import opened Seqs
  import opened Failures
  import opened KTWish
  import opened KTChild
  import L = Ledger

  /** Every wish is filed under its own id. */
  predicate Keyed(wishes: map<string, WishData>)
  {
    forall k :: k in wishes ==> wishes[k].id == k
  }

  function WishKey(w: WishData): string
  {
    w.id
  }

  /** `addWish`: the wish built by the short `Wish` constructor with a
      fresh id, filed under that id. */
  function WishAdded(wishes: map<string, WishData>, freshId: string, title: Option<string>,
                     description: Option<string>, costPoints: int, minLevel: int, childId: Option<string>)
    : (r: Result<(WishData, map<string, WishData>), Failure>)
    ensures var n := NewWish(freshId, title, description, costPoints, minLevel, childId);
      && (n.Err? ==> r == Err(n.error))
      && (n.Ok? ==> r.Ok? && r.value.0 == n.value && r.value.1 == wishes[freshId := n.value])
    ensures r.Ok? && Keyed(wishes) ==> Keyed(r.value.1)
  {
    match NewWish(freshId, title, description, costPoints, minLevel, childId)
    case Err(e) => Err(e)
    case Ok(w) => Ok((w, wishes[w.id := w]))
  }

  /** `listAvailableForChild`: the wishes whose minimum level the child's
      level reaches, approved or not. */
  function AvailableFor(wishes: map<string, WishData>, level: int): (r: set<WishData>)
    ensures forall w :: w in r <==> w in wishes.Values && w.minLevel <= level
  {
    set k | k in wishes && wishes[k].minLevel <= level :: wishes[k]
  }

  /** `approveWish(wishId, child, approverUserId)`: the answer, the wishes
      after and the child's ledger after. An unknown wish is false; an
      approved one is true with nothing charged; a level below the minimum
      or a balance below the cost is false with nothing changed; otherwise
      the cost is debited and the wish marked approved by the approver. */
  function WishApproval(wishes: map<string, WishData>, wishId: string, l: L.Ledger, approver: Option<string>)
    : (r: (Result<bool, Failure>, map<string, WishData>, L.Ledger))
    ensures wishId !in wishes ==> r == (Ok(false), wishes, l)
    ensures wishId in wishes && wishes[wishId].approved ==> r == (Ok(true), wishes, l)
    ensures r.1 != wishes || r.2 != l ==>
      (&& wishId in wishes && !wishes[wishId].approved && wishes[wishId].minLevel <= l.level
       && 0 <= wishes[wishId].costPoints <= l.points
       && r.0 == Ok(true)
       && r.1 == wishes[wishId := wishes[wishId].(approved := true, approvedByUserId := approver)]
       && r.2 == L.Spend(l, wishes[wishId].costPoints).value.1)
    ensures r.0 == Ok(true) <==>
      (wishId in wishes && (wishes[wishId].approved || (wishes[wishId].minLevel <= l.level && 0 <= wishes[wishId].costPoints <= l.points)))
    ensures r.0.Err? <==>
      wishId in wishes && !wishes[wishId].approved && wishes[wishId].minLevel <= l.level && wishes[wishId].costPoints < 0
  {
    if wishId !in wishes then (Ok(false), wishes, l)
    else
      var w := wishes[wishId];
      if w.approved then (Ok(true), wishes, l)
      else if l.level < w.minLevel then (Ok(false), wishes, l)
      else
        match L.Spend(l, w.costPoints)
        case Err(e) => (Err(Reason(e)), wishes, l)
        case Ok((paid, spent)) =>
          if !paid then (Ok(false), wishes, l)
          else (Ok(true), wishes[wishId := w.(approved := true, approvedByUserId := approver)], spent)
  }

  /** Approval is idempotent: approving a wish a second time answers true
      and charges nothing, whoever approves it and whatever the ledger. */
  lemma ApprovalIdempotent(wishes: map<string, WishData>, wishId: string, l: L.Ledger, approver: Option<string>,
                           l2: L.Ledger, approver2: Option<string>)
    requires WishApproval(wishes, wishId, l, approver).0 == Ok(true)
    ensures var after := WishApproval(wishes, wishId, l, approver).1;
      WishApproval(after, wishId, l2, approver2) == (Ok(true), after, l2)
  {
  }

  /** A wish whose approval charged the child was available to the child,
      and the balance never goes below zero. */
  lemma ChargedWishWasAvailable(wishes: map<string, WishData>, wishId: string, l: L.Ledger, approver: Option<string>)
    requires Keyed(wishes) && L.Valid(l)
    ensures var (answer, after, spent) := WishApproval(wishes, wishId, l, approver);
      && L.Valid(spent) && Keyed(after)
      && (spent != l ==> wishes[wishId] in AvailableFor(wishes, l.level) && spent.points == l.points - wishes[wishId].costPoints)
  {
    var (answer, after, spent) := WishApproval(wishes, wishId, l, approver);
    if spent != l {
      assert wishes[wishId] in wishes.Values;
    }
  }

  /** The converse: an available wish not yet approved, with a valid cost
      the child can pay, is approved, and the child pays exactly its cost. */
  lemma AvailableWishApproved(wishes: map<string, WishData>, wishId: string, l: L.Ledger, approver: Option<string>)
    requires Keyed(wishes) && wishId in wishes
    requires wishes[wishId] in AvailableFor(wishes, l.level) && !wishes[wishId].approved
    requires Valid(wishes[wishId]) && wishes[wishId].costPoints <= l.points
    ensures var (answer, after, spent) := WishApproval(wishes, wishId, l, approver);
      && answer == Ok(true)
      && after[wishId].approved && after[wishId].approvedByUserId == approver
      && spent.points == l.points - wishes[wishId].costPoints
  {
  }

  /** `WishManager`: the wishes by id. Saving to disk after each change is
      not modelled. */
  class WishManager {
    var wishes: map<string, WishData>

    ghost predicate Valid()
      reads this
    {
      Keyed(wishes)
    }

    /** `WishManager(dataManager)`: `load()` files the loaded wishes by
        id, a later one replacing an earlier one with the same id. */
    constructor (loaded: seq<WishData>)
      ensures Valid() && wishes == IndexBy(loaded, WishKey)
    {
      var m := IndexAll(loaded, WishKey);
      wishes := m;
    }

    /** `addWish`. */
    method AddWish(freshId: string, title: Option<string>, description: Option<string>, costPoints: int,
                   minLevel: int, childId: Option<string>)
      returns (r: Result<WishData, Failure>)
      requires Valid()
      modifies this
      ensures Valid()
      ensures var a := WishAdded(old(wishes), freshId, title, description, costPoints, minLevel, childId);
        && (a.Err? ==> r == Err(a.error) && wishes == old(wishes))
        && (a.Ok? ==> r == Ok(a.value.0) && wishes == a.value.1)
    {
      var w := NewWish(freshId, title, description, costPoints, minLevel, childId);
      if w.Err? {
        return Err(w.error);
      }
      wishes := wishes[w.value.id := w.value];
      return Ok(w.value);
    }

    /** `listWishes`. */
    function ListWishes(): set<WishData>
      reads this
    {
      wishes.Values
    }

    /** `listAvailableForChild`. */
    function AvailableForChild(child: Child): set<WishData>
      reads this, child
    {
      AvailableFor(wishes, child.level)
    }

    /** `approveWish`: the wish map and the child change as
        `WishApproval` says. */
    method ApproveWish(wishId: string, child: Child, approver: Option<string>) returns (r: Result<bool, Failure>)
      requires Valid()
      modifies this`wishes, child`points, child`level
      ensures Valid()
      ensures (r, wishes, child.Ledger()) == WishApproval(old(wishes), wishId, old(child.Ledger()), approver)
    {
      if wishId !in wishes {
        return Ok(false);
      }
      var wish := wishes[wishId];
      if wish.approved {
        return Ok(true);
      }
      if child.level < wish.minLevel {
        return Ok(false);
      }
      var paid := child.SpendPoints(wish.costPoints);
      if paid.Err? {
        return Err(paid.error);
      }
      if !paid.value {
        return Ok(false);
      }
      wishes := wishes[wishId := wish.(approved := true, approvedByUserId := approver)];
      return Ok(true);
    }
  }
}
