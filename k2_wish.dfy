/** The kid_task copy's `Wish` entity: a reward a child asks for, with a
    price in points, a minimum level, and the parent who decided on it.
    Nullable arguments are `Option`s, as for `Task`. */
module K2Wish {
  import opened Base
  import opened Failures
  import opened Text
  import opened Numbers

  datatype WishType = PRODUCT | ACTIVITY
  datatype WishStatus = PENDING | APPROVED | REJECTED

  /** The enum constants' names, as `name()` gives them. */
  function TypeName(t: WishType): string
  {
    match t
    case PRODUCT => "PRODUCT"
    case ACTIVITY => "ACTIVITY"
  }

  function StatusName(s: WishStatus): string
  {
    match s
    case PENDING => "PENDING"
    case APPROVED => "APPROVED"
    case REJECTED => "REJECTED"
  }

  /** `WishType.valueOf(name)`: `None` where Java throws. */
  function TypeNamed(name: string): (r: Option<WishType>)
    ensures r.Some? ==> TypeName(r.value) == name
    ensures r.None? <==> forall t :: TypeName(t) != name
  {
    if name == "PRODUCT" then Some(PRODUCT)
    else if name == "ACTIVITY" then Some(ACTIVITY)
    else None
  }

  /** `WishStatus.valueOf(name)`. */
  function StatusNamed(name: string): (r: Option<WishStatus>)
    ensures r.Some? ==> StatusName(r.value) == name
    ensures r.None? <==> forall s :: StatusName(s) != name
  {
    if name == "PENDING" then Some(PENDING)
    else if name == "APPROVED" then Some(APPROVED)
    else if name == "REJECTED" then Some(REJECTED)
    else None
  }

  /** Each name is an upper-case enum name and a plain token, and
      `valueOf` finds the constant by it. */
  lemma TypeNameFacts(t: WishType)
    ensures UpperName(TypeName(t)) && Token(TypeName(t)) && TypeNamed(TypeName(t)) == Some(t)
  {
  }

  lemma StatusNameFacts(s: WishStatus)
    ensures UpperName(StatusName(s)) && Token(StatusName(s)) && StatusNamed(StatusName(s)) == Some(s)
  {
    match s
    case PENDING =>
    case APPROVED =>
    case REJECTED =>
  }

  /** The fields of a wish, as the repository stores them. */
  datatype WishData = WishData(
    id: string,
    title: string,
    description: string,
    costPoints: int,
    minLevel: int,
    wishType: WishType,
    status: WishStatus,
    requestedByChildId: string,
    approvedByUserId: Option<string>)

  /** The full constructor: the required fields are checked for null in
      declaration order; cost and minimum level are stored unchecked. */
  function WishRecord(id: Option<string>, title: Option<string>, description: Option<string>,
                      costPoints: int, minLevel: int, wishType: Option<WishType>, status: Option<WishStatus>,
                      requestedBy: Option<string>, approvedBy: Option<string>): (r: Result<WishData, Failure>)
    ensures r.Ok? <==> id.Some? && title.Some? && wishType.Some? && status.Some? && requestedBy.Some?
    ensures id.None? ==> r == Err(NullPointer("ID cannot be null"))
    ensures id.Some? && title.None? ==> r == Err(NullPointer("Title cannot be null"))
    ensures id.Some? && title.Some? && wishType.None? ==> r == Err(NullPointer("Type cannot be null"))
    ensures id.Some? && title.Some? && wishType.Some? && status.None? ==> r == Err(NullPointer("Status cannot be null"))
    ensures id.Some? && title.Some? && wishType.Some? && status.Some? && requestedBy.None? ==>
      r == Err(NullPointer("Requested by child ID cannot be null"))
    ensures r.Ok? ==>
      (r.value.id == id.value && r.value.title == title.value && r.value.wishType == wishType.value
       && r.value.status == status.value && r.value.requestedByChildId == requestedBy.value)
    ensures r.Ok? ==>
      (r.value.description == (if description.Some? then description.value else "")
       && r.value.costPoints == costPoints && r.value.minLevel == minLevel && r.value.approvedByUserId == approvedBy)
  {
    if id.None? then Err(NullPointer("ID cannot be null"))
    else if title.None? then Err(NullPointer("Title cannot be null"))
    else if wishType.None? then Err(NullPointer("Type cannot be null"))
    else if status.None? then Err(NullPointer("Status cannot be null"))
    else if requestedBy.None? then Err(NullPointer("Requested by child ID cannot be null"))
    else Ok(WishData(id.value, title.value, if description.Some? then description.value else "",
                     costPoints, minLevel, wishType.value, status.value, requestedBy.value, approvedBy))
  }

  /** The short constructor: a fresh id, status PENDING, no approver. */
  function NewWish(freshId: string, title: Option<string>, description: Option<string>, costPoints: int,
                   minLevel: int, wishType: Option<WishType>, requestedBy: Option<string>): (r: Result<WishData, Failure>)
    ensures r == WishRecord(Some(freshId), title, description, costPoints, minLevel, wishType, Some(PENDING), requestedBy, None)
    ensures r.Ok? ==> r.value.id == freshId && r.value.status == PENDING && r.value.approvedByUserId.None?
  {
    WishRecord(Some(freshId), title, description, costPoints, minLevel, wishType, Some(PENDING), requestedBy, None)
  }

  class Wish {
    var id: string
    var title: string
    var description: string
    var costPoints: int
    var minLevel: int
    var wishType: WishType
    var status: WishStatus
    var requestedByChildId: string
    var approvedByUserId: Option<string>

    function Value(): WishData
      reads this
    {
      WishData(id, title, description, costPoints, minLevel, wishType, status, requestedByChildId, approvedByUserId)
    }

    constructor FromData(d: WishData)
      ensures Value() == d
    {
      id := d.id;
      title := d.title;
      description := d.description;
      costPoints := d.costPoints;
      minLevel := d.minLevel;
      wishType := d.wishType;
      status := d.status;
      requestedByChildId := d.requestedByChildId;
      approvedByUserId := d.approvedByUserId;
    }

    /** `Wish(id, title, description, costPoints, minLevel, type, status,
        requestedByChildId, approvedByUserId)`. */
    static method Create(id: Option<string>, title: Option<string>, description: Option<string>,
                         costPoints: int, minLevel: int, wishType: Option<WishType>, status: Option<WishStatus>,
                         requestedBy: Option<string>, approvedBy: Option<string>)
      returns (r: Result<Wish, Failure>)
      ensures var d := WishRecord(id, title, description, costPoints, minLevel, wishType, status, requestedBy, approvedBy);
        (d.Err? ==> r == Err(d.error)) && (d.Ok? ==> r.Ok? && fresh(r.value) && r.value.Value() == d.value)
    {
      var d := WishRecord(id, title, description, costPoints, minLevel, wishType, status, requestedBy, approvedBy);
      if d.Err? {
        return Err(d.error);
      }
      var w := new Wish.FromData(d.value);
      return Ok(w);
    }

    /** `Wish(title, description, costPoints, minLevel, type,
        requestedByChildId)`. */
    static method CreateNew(freshId: string, title: Option<string>, description: Option<string>, costPoints: int,
                            minLevel: int, wishType: Option<WishType>, requestedBy: Option<string>)
      returns (r: Result<Wish, Failure>)
      ensures var d := NewWish(freshId, title, description, costPoints, minLevel, wishType, requestedBy);
        (d.Err? ==> r == Err(d.error)) && (d.Ok? ==> r.Ok? && fresh(r.value) && r.value.Value() == d.value)
    {
      r := Create(Some(freshId), title, description, costPoints, minLevel, wishType, Some(PENDING), requestedBy, None);
    }

    /** `setId`. */
    method SetId(v: Option<string>) returns (r: Outcome<Failure>)
      modifies this
      ensures v.None? ==> r == Fail(NullPointer("ID cannot be null")) && Value() == old(Value())
      ensures v.Some? ==> r == Pass && Value() == old(Value()).(id := v.value)
    {
      if v.None? {
        return Fail(NullPointer("ID cannot be null"));
      }
      id := v.value;
      return Pass;
    }

    /** `setTitle`. */
    method SetTitle(v: Option<string>) returns (r: Outcome<Failure>)
      modifies this
      ensures v.None? ==> r == Fail(NullPointer("Title cannot be null")) && Value() == old(Value())
      ensures v.Some? ==> r == Pass && Value() == old(Value()).(title := v.value)
    {
      if v.None? {
        return Fail(NullPointer("Title cannot be null"));
      }
      title := v.value;
      return Pass;
    }

    /** `setDescription`: null becomes the empty string. */
    method SetDescription(v: Option<string>)
      modifies this
      ensures Value() == old(Value()).(description := if v.Some? then v.value else "")
    {
      description := if v.Some? then v.value else "";
    }

    /** `setCostPoints`: no range check. */
    method SetCostPoints(v: int)
      modifies this
      ensures Value() == old(Value()).(costPoints := v)
    {
      costPoints := v;
    }

    /** `setMinLevel`: no range check. */
    method SetMinLevel(v: int)
      modifies this
      ensures Value() == old(Value()).(minLevel := v)
    {
      minLevel := v;
    }

    /** `setType`. */
    method SetType(v: Option<WishType>) returns (r: Outcome<Failure>)
      modifies this
      ensures v.None? ==> r == Fail(NullPointer("Type cannot be null")) && Value() == old(Value())
      ensures v.Some? ==> r == Pass && Value() == old(Value()).(wishType := v.value)
    {
      if v.None? {
        return Fail(NullPointer("Type cannot be null"));
      }
      wishType := v.value;
      return Pass;
    }

    /** `setStatus`. */
    method SetStatus(v: Option<WishStatus>) returns (r: Outcome<Failure>)
      modifies this
      ensures v.None? ==> r == Fail(NullPointer("Status cannot be null")) && Value() == old(Value())
      ensures v.Some? ==> r == Pass && Value() == old(Value()).(status := v.value)
    {
      if v.None? {
        return Fail(NullPointer("Status cannot be null"));
      }
      status := v.value;
      return Pass;
    }

    /** `setRequestedByChildId`. */
    method SetRequestedByChildId(v: Option<string>) returns (r: Outcome<Failure>)
      modifies this
      ensures v.None? ==> r == Fail(NullPointer("Requested by child ID cannot be null")) && Value() == old(Value())
      ensures v.Some? ==> r == Pass && Value() == old(Value()).(requestedByChildId := v.value)
    {
      if v.None? {
        return Fail(NullPointer("Requested by child ID cannot be null"));
      }
      requestedByChildId := v.value;
      return Pass;
    }

    /** `setApprovedByUserId`: any id, or null. */
    method SetApprovedByUserId(v: Option<string>)
      modifies this
      ensures Value() == old(Value()).(approvedByUserId := v)
    {
      approvedByUserId := v;
    }

    /** `equals`: same id. */
    predicate Equals(o: Wish?)
      reads this, o
    {
      o != null && id == o.id
    }
  }

  /** `equals` is an equivalence that looks at the id alone. */
  lemma EqualsById(a: Wish, b: Wish, c: Wish)
    ensures a.Equals(a)
    ensures a.Equals(b) <==> b.Equals(a)
    ensures a.Equals(b) && b.Equals(c) ==> a.Equals(c)
    ensures a.Equals(b) <==> a.id == b.id
    ensures !a.Equals(null)
  {
  }
}
