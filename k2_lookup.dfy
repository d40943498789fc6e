/** The lookups and existence checks that the kidtask services each define
    privately with the same text: `findUserById` and `validateChildExists`
    / `validateParentExists`. */
module K2Lookup {
  import opened Base
  import opened Text
  import opened Failures
  import opened Seqs
  import opened K2Child

  function AccountHasId(id: string): Account -> bool
  {
    (a: Account) => a.id == id
  }

  /** `findUserById`: the position of the first user with that id. */
  function FindAccount(users: seq<Account>, id: string): (k: Option<nat>)
    ensures k.Some? ==> k.value < |users| && users[k.value].id == id
    ensures k.Some? ==> forall j :: 0 <= j < k.value ==> users[j].id != id
    ensures k.None? <==> forall j :: 0 <= j < |users| ==> users[j].id != id
  {
    FirstIndex(users, AccountHasId(id))
  }

  /** The blank test of the id arguments: null, or nothing but spaces and
      control characters. */
  predicate MissingId(id: Option<string>)
  {
    id.None? || TrimsToEmpty(id.value)
  }

  /** `validateChildExists`: a usable id, naming a user whose role is
      CHILD. */
  function CheckChildExists(users: seq<Account>, childId: Option<string>): (r: Outcome<Failure>)
    ensures MissingId(childId) ==> r == Fail(Validation("Child ID cannot be null or empty"))
    ensures !MissingId(childId) && (forall j :: 0 <= j < |users| ==> users[j].id != childId.value) ==>
      r == Fail(NotFound("Child not found: " + childId.value))
    ensures r.Pass? ==> !MissingId(childId) && exists j :: 0 <= j < |users| && users[j].id == childId.value && users[j].RoleOf() == CHILD
    ensures r.Fail? && r.error.Validation? && !MissingId(childId) ==> r.error.message == "User is not a child: " + childId.value
    ensures r.Pass? <==>
      (!MissingId(childId) && FindAccount(users, childId.value).Some?
       && users[FindAccount(users, childId.value).value].RoleOf() == CHILD)
  {
    if MissingId(childId) then Fail(Validation("Child ID cannot be null or empty"))
    else match FindAccount(users, childId.value)
      case None => Fail(NotFound("Child not found: " + childId.value))
      case Some(k) =>
        if users[k].RoleOf() != CHILD then Fail(Validation("User is not a child: " + childId.value))
        else Pass
  }

  /** `validateParentExists`: a usable id, naming a user whose role is
      PARENT (a teacher does not qualify). */
  function CheckParentExists(users: seq<Account>, parentId: Option<string>): (r: Outcome<Failure>)
    ensures MissingId(parentId) ==> r == Fail(Validation("Parent ID cannot be null or empty"))
    ensures !MissingId(parentId) && (forall j :: 0 <= j < |users| ==> users[j].id != parentId.value) ==>
      r == Fail(NotFound("Parent not found: " + parentId.value))
    ensures r.Pass? ==> !MissingId(parentId) && exists j :: 0 <= j < |users| && users[j].id == parentId.value && users[j].RoleOf() == PARENT
    ensures r.Pass? <==>
      (!MissingId(parentId) && FindAccount(users, parentId.value).Some?
       && users[FindAccount(users, parentId.value).value].RoleOf() == PARENT)
  {
    if MissingId(parentId) then Fail(Validation("Parent ID cannot be null or empty"))
    else match FindAccount(users, parentId.value)
      case None => Fail(NotFound("Parent not found: " + parentId.value))
      case Some(k) =>
        if users[k].RoleOf() != PARENT then Fail(Validation("User is not a parent: " + parentId.value))
        else Pass
  }

  /** Replacing a user's ledger keeps every lookup by id where it was. */
  lemma FindAfterLedgerUpdate(users: seq<Account>, k: nat, l: K2Child.L.Ledger, id: string)
    requires k < |users| && users[k].Kid?
    ensures FindAccount(users[k := users[k].(ledger := l)], id) == FindAccount(users, id)
  {
    var after := users[k := users[k].(ledger := l)];
    assert forall j :: 0 <= j < |users| ==> after[j].id == users[j].id;
    match FindAccount(users, id)
    case None =>
    case Some(i) => FirstIndexIs(after, AccountHasId(id), i);
  }
}
