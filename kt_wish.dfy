/** The KidTask copy's `Wish` entity: a reward with a price and a minimum
    level, approved by a flag. Its setters validate the title, the cost and
    the minimum level; the id is fixed at construction. */
module KTWish {
  import opened Base
  import opened Text
  import opened Failures

  /** The fields of a wish. */
  datatype WishData = WishData(
    id: string,
    title: string,
    description: string,
    costPoints: int,
    minLevel: int,
    approved: bool,
    requestedByChildId: string,
    approvedByUserId: Option<string>)

  /** What the validating setters keep, taken together. */
  predicate Valid(w: WishData)
  {
    !IsBlank(w.title) && w.costPoints > 0 && w.minLevel >= 1
  }

  /** `setTitle`'s check: present and not blank. */
  function CheckTitle(title: Option<string>): (r: Outcome<Failure>)
    ensures r.Pass? <==> title.Some? && !IsBlank(title.value)
    ensures r.Fail? ==> r.error == IllegalArgument("Wish title is required")
  {
    if title.None? || IsBlank(title.value) then Fail(IllegalArgument("Wish title is required")) else Pass
  }

  /** `setCostPoints`'s check: strictly positive. */
  function CheckCost(cost: int): (r: Outcome<Failure>)
    ensures r.Pass? <==> cost > 0
    ensures r.Fail? ==> r.error == IllegalArgument("Cost must be positive")
  {
    if cost <= 0 then Fail(IllegalArgument("Cost must be positive")) else Pass
  }

  /** `setMinLevel`'s check: at least 1. */
  function CheckMinLevel(minLevel: int): (r: Outcome<Failure>)
    ensures r.Pass? <==> minLevel >= 1
    ensures r.Fail? ==> r.error == IllegalArgument("Minimum level must be >= 1")
  {
    if minLevel < 1 then Fail(IllegalArgument("Minimum level must be >= 1")) else Pass
  }

  /** The full constructor, in its statement order: the id, the title, the
      cost, the minimum level, then the requesting child. */
  function WishRecord(id: Option<string>, title: Option<string>, description: Option<string>,
                      costPoints: int, minLevel: int, approved: bool, requestedBy: Option<string>,
                      approvedBy: Option<string>): (r: Result<WishData, Failure>)
    ensures r.Ok? <==> id.Some? && CheckTitle(title).Pass? && costPoints > 0 && minLevel >= 1 && requestedBy.Some?
    ensures id.None? ==> r == Err(NullPointer("id"))
    ensures id.Some? && CheckTitle(title).Fail? ==> r == Err(CheckTitle(title).error)
    ensures id.Some? && CheckTitle(title).Pass? && costPoints <= 0 ==> r == Err(CheckCost(costPoints).error)
    ensures id.Some? && CheckTitle(title).Pass? && costPoints > 0 && minLevel < 1 ==> r == Err(CheckMinLevel(minLevel).error)
    ensures r.Ok? ==>
      (&& r.value.id == id.value && r.value.title == title.value
       && r.value.description == (if description.Some? then description.value else "")
       && r.value.costPoints == costPoints && r.value.minLevel == minLevel && r.value.approved == approved
       && r.value.requestedByChildId == requestedBy.value && r.value.approvedByUserId == approvedBy)
    ensures r.Ok? ==> Valid(r.value)
  {
    if id.None? then Err(NullPointer("id"))
    else if CheckTitle(title).Fail? then Err(CheckTitle(title).error)
    else if CheckCost(costPoints).Fail? then Err(CheckCost(costPoints).error)
    else if CheckMinLevel(minLevel).Fail? then Err(CheckMinLevel(minLevel).error)
    else if requestedBy.None? then Err(NullPointer("requestedByChildId"))
    else Ok(WishData(id.value, title.value, if description.Some? then description.value else "",
                     costPoints, minLevel, approved, requestedBy.value, approvedBy))
  }

  /** The short constructor: a generated id (passed in), not approved, no
      approver. */
  function NewWish(freshId: string, title: Option<string>, description: Option<string>, costPoints: int,
                   minLevel: int, requestedBy: Option<string>): (r: Result<WishData, Failure>)
    ensures r == WishRecord(Some(freshId), title, description, costPoints, minLevel, false, requestedBy, None)
    ensures r.Ok? ==> r.value.id == freshId && !r.value.approved && r.value.approvedByUserId.None?
  {
    WishRecord(Some(freshId), title, description, costPoints, minLevel, false, requestedBy, None)
  }

  class Wish {
    const id: string
    var title: string
    var description: string
    var costPoints: int
    var minLevel: int
    var approved: bool
    var requestedByChildId: string
    var approvedByUserId: Option<string>

    function Value(): WishData
      reads this
    {
      WishData(id, title, description, costPoints, minLevel, approved, requestedByChildId, approvedByUserId)
    }

    constructor FromData(d: WishData)
      ensures Value() == d
    {
      id := d.id;
      title := d.title;
      description := d.description;
      costPoints := d.costPoints;
      minLevel := d.minLevel;
      approved := d.approved;
      requestedByChildId := d.requestedByChildId;
      approvedByUserId := d.approvedByUserId;
    }

    /** `Wish(id, title, description, costPoints, minLevel, approved,
        requestedByChildId, approvedByUserId)`. */
    static method Create(id: Option<string>, title: Option<string>, description: Option<string>,
                         costPoints: int, minLevel: int, approved: bool, requestedBy: Option<string>,
                         approvedBy: Option<string>)
      returns (r: Result<Wish, Failure>)
      ensures var d := WishRecord(id, title, description, costPoints, minLevel, approved, requestedBy, approvedBy);
        (d.Err? ==> r == Err(d.error)) && (d.Ok? ==> r.Ok? && fresh(r.value) && r.value.Value() == d.value)
    {
      var d := WishRecord(id, title, description, costPoints, minLevel, approved, requestedBy, approvedBy);
      if d.Err? {
        return Err(d.error);
      }
      var w := new Wish.FromData(d.value);
      return Ok(w);
    }

    /** `Wish(title, description, costPoints, minLevel, requestedByChildId)`. */
    static method CreateNew(freshId: string, title: Option<string>, description: Option<string>, costPoints: int,
                            minLevel: int, requestedBy: Option<string>)
      returns (r: Result<Wish, Failure>)
      ensures var d := NewWish(freshId, title, description, costPoints, minLevel, requestedBy);
        (d.Err? ==> r == Err(d.error)) && (d.Ok? ==> r.Ok? && fresh(r.value) && r.value.Value() == d.value)
    {
      r := Create(Some(freshId), title, description, costPoints, minLevel, false, requestedBy, None);
    }

    /** `setTitle`. */
    method SetTitle(v: Option<string>) returns (r: Outcome<Failure>)
      modifies this
      ensures r == CheckTitle(v)
      ensures r.Fail? ==> Value() == old(Value())
      ensures r.Pass? ==> Value() == old(Value()).(title := v.value)
      ensures old(Valid(Value())) ==> Valid(Value())
    {
      r := CheckTitle(v);
      if r.Pass? {
        title := v.value;
      }
    }

    /** `setDescription`: null becomes the empty string. */
    method SetDescription(v: Option<string>)
      modifies this
      ensures Value() == old(Value()).(description := if v.Some? then v.value else "")
    {
      description := if v.Some? then v.value else "";
    }

    /** `setCostPoints`. */
    method SetCostPoints(v: int) returns (r: Outcome<Failure>)
      modifies this
      ensures r == CheckCost(v)
      ensures r.Fail? ==> Value() == old(Value())
      ensures r.Pass? ==> Value() == old(Value()).(costPoints := v)
      ensures old(Valid(Value())) ==> Valid(Value())
    {
      r := CheckCost(v);
      if r.Pass? {
        costPoints := v;
      }
    }

    /** `setMinLevel`. */
    method SetMinLevel(v: int) returns (r: Outcome<Failure>)
      modifies this
      ensures r == CheckMinLevel(v)
      ensures r.Fail? ==> Value() == old(Value())
      ensures r.Pass? ==> Value() == old(Value()).(minLevel := v)
      ensures old(Valid(Value())) ==> Valid(Value())
    {
      r := CheckMinLevel(v);
      if r.Pass? {
        minLevel := v;
      }
    }

    /** `setApproved`. */
    method SetApproved(v: bool)
      modifies this
      ensures Value() == old(Value()).(approved := v)
    {
      approved := v;
    }

    /** `setRequestedByChildId`. */
    method SetRequestedByChildId(v: Option<string>) returns (r: Outcome<Failure>)
      modifies this
      ensures v.None? ==> r == Fail(NullPointer("requestedByChildId")) && Value() == old(Value())
      ensures v.Some? ==> r == Pass && Value() == old(Value()).(requestedByChildId := v.value)
    {
      if v.None? {
        return Fail(NullPointer("requestedByChildId"));
      }
      requestedByChildId := v.value;
      return Pass;
    }

    /** `setApprovedByUserId`: any value, or null. */
    method SetApprovedByUserId(v: Option<string>)
      modifies this
      ensures Value() == old(Value()).(approvedByUserId := v)
    {
      approvedByUserId := v;
    }
  }
}
