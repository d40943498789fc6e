/** The Desktop copy's `UserService`: the list of all users, lookups by id
    and by login, and the parent, class and teacher relations. Loading and
    saving the JSON file is not modelled; the loaded list is passed in. */
module DeskUserService {
  import opened Base
  import opened Text
  import opened Failures
  import opened Seqs
  import opened DeskUser

  function HasId(id: string): User -> bool
  {
    (u: User) => u.id == id
  }

  /** The filter of `login`: the name matches ignoring case, the password
      exactly. */
  function Matches(name: string, password: string): User -> bool
  {
    (u: User) => EqualsIgnoreCase(u.name, name) && u.password == password
  }

  /** The filter of `getKidsOfClass`. */
  function KidOfClass(classId: string): User -> bool
  {
    (u: User) => u.role == "kid" && u.classId == Some(classId)
  }

  /** The users named by `ids`, in that order, skipping ids nobody has:
      what the loop of `getChildrenOfParent` collects. */
  function UsersWithIds(users: seq<User>, ids: seq<string>): (r: seq<User>)
    ensures |r| <= |ids|
    ensures forall i :: 0 <= i < |r| ==> r[i] in users && r[i].id in ids
    decreases |ids|
  {
    if ids == [] then []
    else
      var front := UsersWithIds(users, ids[..|ids| - 1]);
      match FindFirst(users, HasId(ids[|ids| - 1]))
      case None => front
      case Some(u) => front + [u]
  }

  /** Every id on the list that some user has contributes a user. */
  lemma {:induction false} UsersWithIdsComplete(users: seq<User>, ids: seq<string>, k: nat)
    requires k < |ids| && exists j :: 0 <= j < |users| && users[j].id == ids[k]
    ensures exists i :: 0 <= i < |UsersWithIds(users, ids)| && UsersWithIds(users, ids)[i].id == ids[k]
    decreases |ids|
  {
    var n := |ids| - 1;
    var front := UsersWithIds(users, ids[..n]);
    if k < n {
      assert ids[..n][k] == ids[k];
      UsersWithIdsComplete(users, ids[..n], k);
      var i :| 0 <= i < |front| && front[i].id == ids[k];
      match FindFirst(users, HasId(ids[n]))
      case None => assert UsersWithIds(users, ids) == front;
      case Some(u) => assert UsersWithIds(users, ids)[i] == (front + [u])[i] == front[i];
    } else {
      var j :| 0 <= j < |users| && users[j].id == ids[k];
      assert HasId(ids[n])(users[j]);
      var u := FindFirst(users, HasId(ids[n])).value;
      assert UsersWithIds(users, ids) == front + [u];
      assert UsersWithIds(users, ids)[|front|] == u;
    }
  }

  /** The kids of each class in turn, concatenated: what the loop of
      `getKidsOfTeacher` collects. */
  function KidsOfClasses(users: seq<User>, classIds: seq<string>): seq<User>
    decreases |classIds|
  {
    if classIds == [] then []
    else KidsOfClasses(users, classIds[..|classIds| - 1]) + Filter(users, KidOfClass(classIds[|classIds| - 1]))
  }

  /** A user is among the kids of a list of classes exactly when it is a
      kid whose class is on the list. */
  lemma {:induction false} InKidsOfClasses(users: seq<User>, classIds: seq<string>, u: User)
    ensures u in KidsOfClasses(users, classIds) <==>
      u in users && u.role == "kid" && u.classId.Some? && u.classId.value in classIds
    decreases |classIds|
  {
    if classIds != [] {
      var n := |classIds| - 1;
      InKidsOfClasses(users, classIds[..n], u);
      var f := Filter(users, KidOfClass(classIds[n]));
      if u in f {
        var i :| 0 <= i < |f| && f[i] == u;
      }
      if u in users && KidOfClass(classIds[n])(u) {
        var i :| 0 <= i < |users| && users[i] == u;
      }
      assert classIds == classIds[..n] + [classIds[n]];
    }
  }

  class UserService {
    var users: seq<User>

    /** The service over the list read from the users file (an empty list
        when there is no file). */
    constructor (loaded: seq<User>)
      ensures users == loaded
    {
      users := loaded;
    }

    /** `addUser`. */
    method AddUser(u: User)
      modifies this`users
      ensures users == old(users) + [u]
    {
      users := users + [u];
    }

    /** `getUserById`: the first user with that id, or null. */
    function GetUserById(id: string): (r: Option<User>)
      reads this
      ensures r.None? <==> forall i :: 0 <= i < |users| ==> users[i].id != id
      ensures r.Some? ==> r.value in users && r.value.id == id
    {
      match FirstIndex(users, HasId(id))
      case None => None
      case Some(k) => Some(users[k])
    }

    /** The user found is the first one with that id. */
    lemma GetUserByIdIsFirst(id: string)
      requires GetUserById(id).Some?
      ensures exists i ::
        0 <= i < |users| && users[i] == GetUserById(id).value && (forall j :: 0 <= j < i ==> users[j].id != id)
    {
      var k := FirstIndex(users, HasId(id)).value;
      assert users[k] == GetUserById(id).value;
    }

    /** `login`: the first user whose name equals `name` ignoring case and
        whose password equals `password`, or null. */
    function Login(name: string, password: string): (r: Option<User>)
      reads this
      ensures r.None? <==> forall i :: 0 <= i < |users| ==>
        !(EqualsIgnoreCase(users[i].name, name) && users[i].password == password)
      ensures r.Some? ==> r.value in users && EqualsIgnoreCase(r.value.name, name) && r.value.password == password
    {
      FindFirst(users, Matches(name, password))
    }

    /** The result of `getChildrenOfParent`: nothing for an unknown
        parent; otherwise the users named in the parent's children list, in
        order, skipping unknown ids; a parent without a list throws. */
    function ChildrenOfParent(parentId: string): Result<seq<User>, Failure>
      reads this, users
    {
      match GetUserById(parentId)
      case None => Ok([])
      case Some(parent) =>
        if parent.childrenIds.None? then Err(NullPointer("childrenIds"))
        else Ok(UsersWithIds(users, parent.childrenIds.value))
    }

    /** `getChildrenOfParent`. */
    method GetChildrenOfParent(parentId: string) returns (r: Result<seq<User>, Failure>)
      ensures r == ChildrenOfParent(parentId)
    {
      var parent := GetUserById(parentId);
      if parent.None? {
        return Ok([]);
      }
      if parent.value.childrenIds.None? {
        return Err(NullPointer("childrenIds"));
      }
      var ids := parent.value.childrenIds.value;
      var result: seq<User> := [];
      var i := 0;
      while i < |ids|
        invariant 0 <= i <= |ids|
        invariant result == UsersWithIds(users, ids[..i])
      {
        assert ids[..i + 1][..i] == ids[..i];
        var child := GetUserById(ids[i]);
        if child.Some? {
          result := result + [child.value];
        }
        i := i + 1;
      }
      assert ids[..|ids|] == ids;
      return Ok(result);
    }

    /** `getKidsOfClass`: the users with role "kid" in that class, in list
        order. */
    method GetKidsOfClass(classId: string) returns (r: seq<User>)
      ensures r == Filter(users, KidOfClass(classId))
    {
      r := [];
      var i := 0;
      while i < |users|
        invariant 0 <= i <= |users|
        invariant r == Filter(users[..i], KidOfClass(classId))
      {
        FilterSnoc(users, i, KidOfClass(classId));
        var u := users[i];
        if u.role == "kid" && u.classId == Some(classId) {
          r := r + [u];
        }
        i := i + 1;
      }
      assert users[..|users|] == users;
    }

    /** `getKidsOfTeacher`: nothing for an unknown teacher; otherwise the
        kids of each of the teacher's classes in turn; a teacher without a
        class list throws. */
    method GetKidsOfTeacher(teacherId: string) returns (r: Result<seq<User>, Failure>)
      ensures GetUserById(teacherId).None? ==> r == Ok([])
      ensures GetUserById(teacherId).Some? && GetUserById(teacherId).value.classIds.None? ==>
        r == Err(NullPointer("classIds"))
      ensures GetUserById(teacherId).Some? && GetUserById(teacherId).value.classIds.Some? ==>
        r == Ok(KidsOfClasses(users, GetUserById(teacherId).value.classIds.value))
    {
      var t := GetUserById(teacherId);
      if t.None? {
        return Ok([]);
      }
      if t.value.classIds.None? {
        return Err(NullPointer("classIds"));
      }
      var cids := t.value.classIds.value;
      var list: seq<User> := [];
      var i := 0;
      while i < |cids|
        invariant 0 <= i <= |cids|
        invariant list == KidsOfClasses(users, cids[..i])
      {
        assert cids[..i + 1][..i] == cids[..i];
        var kids := GetKidsOfClass(cids[i]);
        list := list + kids;
        i := i + 1;
      }
      assert cids[..|cids|] == cids;
      return Ok(list);
    }
  }

  /** A parent's children are users whose ids are on the parent's list, and
      every id on the list that some user has is represented. */
  lemma ChildrenOfParentMembers(s: UserService, parentId: string, k: nat)
    requires s.GetUserById(parentId).Some? && s.GetUserById(parentId).value.childrenIds.Some?
    requires k < |s.GetUserById(parentId).value.childrenIds.value|
    requires exists j :: 0 <= j < |s.users| && s.users[j].id == s.GetUserById(parentId).value.childrenIds.value[k]
    ensures s.ChildrenOfParent(parentId).Ok?
    ensures forall i :: 0 <= i < |s.ChildrenOfParent(parentId).value| ==>
      s.ChildrenOfParent(parentId).value[i] in s.users &&
      s.ChildrenOfParent(parentId).value[i].id in s.GetUserById(parentId).value.childrenIds.value
    ensures exists i :: (0 <= i < |s.ChildrenOfParent(parentId).value| &&
      s.ChildrenOfParent(parentId).value[i].id == s.GetUserById(parentId).value.childrenIds.value[k])
  {
    UsersWithIdsComplete(s.users, s.GetUserById(parentId).value.childrenIds.value, k);
  }

  /** The kids of a teacher are exactly the kids in one of the teacher's
      classes. */
  lemma KidsOfTeacherMembers(s: UserService, teacherId: string, u: User)
    requires s.GetUserById(teacherId).Some? && s.GetUserById(teacherId).value.classIds.Some?
    ensures u in KidsOfClasses(s.users, s.GetUserById(teacherId).value.classIds.value) <==>
      u in s.users && u.role == "kid" && u.classId.Some?
      && u.classId.value in s.GetUserById(teacherId).value.classIds.value
  {
    InKidsOfClasses(s.users, s.GetUserById(teacherId).value.classIds.value, u);
  }
}
